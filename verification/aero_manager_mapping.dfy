/** The AeroManager event handlers of the subgraph
    (subgraph/src/AeroManager.mapping.ts). Each handler looks up the gauge of
    the event; an event of an unknown gauge is dropped, otherwise one entity is
    saved under the event's id and the gauge's collateral. */
module AeroManagerMapping {
  import opened Common
  import opened SubgraphStore

  /** The transaction and block fields every event carries. */
  datatype EventMeta = EventMeta(
    txHash: string, txFrom: string, logIndex: nat, blockNumber: nat, timestamp: nat)

  datatype StakedLog = StakedLog(meta: EventMeta, gauge: string, token: string, amount: nat)

  datatype ClaimedLog = ClaimedLog(meta: EventMeta, gauge: string, total: nat, claimFee: nat, epoch: nat)

  datatype AeroDistributedLog = AeroDistributedLog(
    meta: EventMeta, gauge: string, recipients: nat, totalRewardAmount: nat, epoch: nat)

  /** `eventId`: the transaction hash, a colon, and the log index. */
  function EventId(txHash: string, logIndex: string): (id: string)
    ensures |id| == |txHash| + 1 + |logIndex|
    ensures id[..|txHash|] == txHash && id[|txHash|] == ':' && id[|txHash| + 1..] == logIndex
  {
    txHash + ":" + logIndex
  }

  /** The id of an event's entity. */
  function IdOf(m: EventMeta): string {
    EventId(m.txHash, NatToString(m.logIndex))
  }

  /** Hashes hold no colon, so two events share an id only when they share the
      transaction and the log index. */
  lemma EventIdInjective(m1: EventMeta, m2: EventMeta)
    requires ':' !in m1.txHash && ':' !in m2.txHash
    requires IdOf(m1) == IdOf(m2)
    ensures m1.txHash == m2.txHash && m1.logIndex == m2.logIndex
  {
    var a, b := IdOf(m1), IdOf(m2);
    if |m1.txHash| != |m2.txHash| {
      assert false;
    }
    assert m1.txHash == a[..|m1.txHash|] == b[..|m2.txHash|] == m2.txHash;
    NatToStringInjective(m1.logIndex, m2.logIndex);
  }

  /** `handleStaked`: with a known gauge, an `AeroStake` under the event id,
      whose active pool is the transaction sender; nothing else changes. */
  method HandleStaked(store: Store, ev: StakedLog)
    requires store.Valid()
    modifies store
    ensures store.Valid()
    ensures ev.gauge !in old(store.aeroGauges) ==> store.aeroStakes == old(store.aeroStakes)
    ensures ev.gauge in old(store.aeroGauges) ==>
      store.aeroStakes == old(store.aeroStakes)[IdOf(ev.meta) := AeroStake(
        old(store.aeroGauges)[ev.gauge].collateral, ev.meta.txFrom, ev.gauge, ev.token, ev.amount,
        ev.meta.blockNumber, ev.meta.timestamp, ev.meta.txHash)]
    ensures unchanged(store`aeroGauges, store`aeroClaims, store`aeroDistributions)
    ensures unchanged(store`collaterals, store`collateralAddresses, store`dataSources)
  {
    var activePool := ev.meta.txFrom;
    if ev.gauge !in store.aeroGauges {
      return;
    }
    var gauge := store.aeroGauges[ev.gauge];
    var id := IdOf(ev.meta);
    var stake := AeroStake(
      gauge.collateral, activePool, ev.gauge, ev.token, ev.amount,
      ev.meta.blockNumber, ev.meta.timestamp, ev.meta.txHash);
    store.aeroStakes := store.aeroStakes[id := stake];
  }

  /** `handleClaimed`: with a known gauge, an `AeroClaim` under the event id
      carrying the claim's total, fee and epoch verbatim; nothing else
      changes. */
  method HandleClaimed(store: Store, ev: ClaimedLog)
    requires store.Valid()
    modifies store
    ensures store.Valid()
    ensures ev.gauge !in old(store.aeroGauges) ==> store.aeroClaims == old(store.aeroClaims)
    ensures ev.gauge in old(store.aeroGauges) ==>
      store.aeroClaims == old(store.aeroClaims)[IdOf(ev.meta) := AeroClaim(
        old(store.aeroGauges)[ev.gauge].collateral, ev.meta.txFrom, ev.gauge, ev.total, ev.claimFee, ev.epoch,
        ev.meta.blockNumber, ev.meta.timestamp, ev.meta.txHash)]
    ensures unchanged(store`aeroGauges, store`aeroStakes, store`aeroDistributions)
    ensures unchanged(store`collaterals, store`collateralAddresses, store`dataSources)
  {
    var activePool := ev.meta.txFrom;
    if ev.gauge !in store.aeroGauges {
      return;
    }
    var gauge := store.aeroGauges[ev.gauge];
    var id := IdOf(ev.meta);
    var claim := AeroClaim(
      gauge.collateral, activePool, ev.gauge, ev.total, ev.claimFee, ev.epoch,
      ev.meta.blockNumber, ev.meta.timestamp, ev.meta.txHash);
    store.aeroClaims := store.aeroClaims[id := claim];
  }

  /** `handleAeroDistributed`: with a known gauge, an `AeroDistribution` under
      the event id carrying recipients, reward amount and epoch; nothing else
      changes. */
  method HandleAeroDistributed(store: Store, ev: AeroDistributedLog)
    requires store.Valid()
    modifies store
    ensures store.Valid()
    ensures ev.gauge !in old(store.aeroGauges) ==> store.aeroDistributions == old(store.aeroDistributions)
    ensures ev.gauge in old(store.aeroGauges) ==>
      store.aeroDistributions == old(store.aeroDistributions)[IdOf(ev.meta) := AeroDistribution(
        old(store.aeroGauges)[ev.gauge].collateral, ev.gauge, ev.recipients, ev.totalRewardAmount, ev.epoch,
        ev.meta.blockNumber, ev.meta.timestamp, ev.meta.txHash)]
    ensures unchanged(store`aeroGauges, store`aeroStakes, store`aeroClaims)
    ensures unchanged(store`collaterals, store`collateralAddresses, store`dataSources)
  {
    if ev.gauge !in store.aeroGauges {
      return;
    }
    var gauge := store.aeroGauges[ev.gauge];
    var id := IdOf(ev.meta);
    var distribution := AeroDistribution(
      gauge.collateral, ev.gauge, ev.recipients, ev.totalRewardAmount, ev.epoch,
      ev.meta.blockNumber, ev.meta.timestamp, ev.meta.txHash);
    store.aeroDistributions := store.aeroDistributions[id := distribution];
  }
}
