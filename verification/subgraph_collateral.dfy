/** Collateral branch registration in the subgraph
    (subgraph/src/shared/collateral.ts): the collateral id scheme and the
    entities and data sources `addCollateralBranch` creates. The contract calls
    it makes are given as `BranchCalls`. */
module SubgraphCollateral {
  import opened Common
  import opened SubgraphStore

  /** `Address.zero()` as hex. */
  const ZeroAddress: string := "0x0000000000000000000000000000000000000000"

  /** `getCollateralType`. */
  function GetCollateralType(isRedeemable: bool): (t: string)
    ensures t == (if isRedeemable then "r" else "n")
  {
    if isRedeemable then "r" else "n"
  }

  /** `getCollateralId`: the type letter, a colon, and the decimal index. */
  function GetCollateralId(collIndex: int, isRedeemable: bool): (id: string)
    ensures |id| >= 3 && id[1] == ':'
    ensures id[0] == (if isRedeemable then 'r' else 'n')
    ensures id[2..] == IntToString(collIndex)
  {
    GetCollateralType(isRedeemable) + ":" + IntToString(collIndex)
  }

  /** Distinct (index, redeemable) pairs give distinct collateral ids. */
  lemma CollateralIdInjective(i1: int, r1: bool, i2: int, r2: bool)
    requires GetCollateralId(i1, r1) == GetCollateralId(i2, r2)
    ensures i1 == i2 && r1 == r2
  {
    IntToStringInjective(i1, i2);
  }

  /** The values `addCollateralBranch` reads from the branch's contracts:
      the trove manager's addresses, the borrower operations' `MCR`, and the
      active pool's LP flag, gauge and AeroManager. */
  datatype BranchCalls = BranchCalls(
    borrowerOperations: string,
    sortedTroves: string,
    stabilityPool: string,
    activePool: string,
    troveNft: string,
    mcr: nat,
    isAeroLPCollateral: bool,
    aeroGaugeAddress: string,
    aeroManagerAddress: string)

  /** The `CollateralAddresses` entity of a new branch. */
  function NewAddresses(collId: string, tokenAddress: string, troveManagerAddress: string, calls: BranchCalls)
    : CollateralAddresses
  {
    CollateralAddresses(
      collId, calls.borrowerOperations, calls.sortedTroves, calls.stabilityPool, calls.activePool,
      tokenAddress, troveManagerAddress, calls.troveNft,
      if calls.aeroGaugeAddress != ZeroAddress then Some(calls.aeroGaugeAddress) else None)
  }

  /** The data sources a new branch creates: an AeroManager source when the
      active pool names one, then the trove manager and trove NFT sources with
      the branch context. */
  function NewSources(ctx: BranchContext, calls: BranchCalls): seq<DataSource> {
    (if calls.aeroManagerAddress != ZeroAddress then [AeroManagerSource(calls.aeroManagerAddress)] else [])
    + [TroveManagerSource(ctx.addresses.troveManager, ctx), TroveNftSource(calls.troveNft, ctx)]
  }

  /** `addCollateralBranch`. A branch whose collateral already exists changes
      nothing, so registering a branch twice is the same as once. Otherwise it
      stores the `Collateral` and its `CollateralAddresses` under the collateral
      id, an `AeroGauge` under the gauge address only when the gauge address is
      not zero, and creates the branch's data sources. */
  method AddCollateralBranch(
    store: Store, collIndex: int, totalCollaterals: int, tokenAddress: string,
    troveManagerAddress: string, isRedeemable: bool, calls: BranchCalls)
    requires store.Valid()
    modifies store
    ensures store.Valid()
    ensures GetCollateralId(collIndex, isRedeemable) in old(store.collaterals) ==> unchanged(store)
    ensures GetCollateralId(collIndex, isRedeemable) !in old(store.collaterals) ==>
      Registered(store, old(store.collaterals), old(store.collateralAddresses), old(store.aeroGauges), old(store.dataSources),
        GetCollateralId(collIndex, isRedeemable), collIndex, totalCollaterals, tokenAddress, troveManagerAddress, isRedeemable, calls)
    ensures unchanged(store`aeroStakes, store`aeroClaims, store`aeroDistributions)
  {
    var collId := GetCollateralId(collIndex, isRedeemable);
    if collId in store.collaterals {
      return;
    }
    SaveBranch(store, collId, collIndex, totalCollaterals, tokenAddress, troveManagerAddress, isRedeemable, calls);
  }

  /** The store after a new branch is saved: its `Collateral`, its
      `CollateralAddresses`, its `AeroGauge` when the gauge address is not
      zero, and its data sources, over the given earlier contents. */
  ghost predicate Registered(
    store: Store, collaterals: map<string, Collateral>, collateralAddresses: map<string, CollateralAddresses>,
    aeroGauges: map<string, AeroGauge>, dataSources: seq<DataSource>,
    collId: string, collIndex: int, totalCollaterals: int, tokenAddress: string,
    troveManagerAddress: string, isRedeemable: bool, calls: BranchCalls)
    reads store
  {
    var addresses := NewAddresses(collId, tokenAddress, troveManagerAddress, calls);
    && store.collaterals == collaterals[collId := Collateral(collIndex, isRedeemable, calls.mcr, calls.isAeroLPCollateral)]
    && store.collateralAddresses == collateralAddresses[collId := addresses]
    && store.aeroGauges == (if calls.aeroGaugeAddress != ZeroAddress
        then aeroGauges[calls.aeroGaugeAddress := AeroGauge(
          collId, calls.aeroGaugeAddress, tokenAddress, calls.activePool, calls.aeroManagerAddress)]
        else aeroGauges)
    && store.dataSources == dataSources + NewSources(
        BranchContext(addresses, collId, GetCollateralType(isRedeemable), collIndex, totalCollaterals), calls)
  }

  /** The writes of `addCollateralBranch` for a collateral id not yet stored. */
  method SaveBranch(
    store: Store, collId: string, collIndex: int, totalCollaterals: int, tokenAddress: string,
    troveManagerAddress: string, isRedeemable: bool, calls: BranchCalls)
    requires store.Valid()
    modifies store
    ensures store.Valid()
    ensures Registered(store, old(store.collaterals), old(store.collateralAddresses), old(store.aeroGauges), old(store.dataSources),
      collId, collIndex, totalCollaterals, tokenAddress, troveManagerAddress, isRedeemable, calls)
    ensures unchanged(store`aeroStakes, store`aeroClaims, store`aeroDistributions)
  {
    var collateral := Collateral(collIndex, isRedeemable, calls.mcr, calls.isAeroLPCollateral);
    var addresses := NewAddresses(collId, tokenAddress, troveManagerAddress, calls);
    var gauge := if calls.aeroGaugeAddress != ZeroAddress
      then Some(AeroGauge(collId, calls.aeroGaugeAddress, addresses.token, addresses.activePool, calls.aeroManagerAddress))
      else None;
    RegisterKeepsIntegrity(
      store.aeroGauges, store.aeroStakes, store.aeroClaims, store.aeroDistributions, store.collaterals,
      collId, collateral, gauge);
    var gauges := if gauge.Some? then store.aeroGauges[gauge.value.gauge := gauge.value] else store.aeroGauges;
    var sources := if calls.aeroManagerAddress != ZeroAddress then [AeroManagerSource(calls.aeroManagerAddress)] else [];
    var context := BranchContext(addresses, collId, GetCollateralType(isRedeemable), collIndex, totalCollaterals);
    sources := sources + [TroveManagerSource(troveManagerAddress, context), TroveNftSource(addresses.troveNft, context)];
    store.collaterals, store.collateralAddresses := store.collaterals[collId := collateral], store.collateralAddresses[collId := addresses];
    store.aeroGauges, store.dataSources := gauges, store.dataSources + sources;
  }
}
