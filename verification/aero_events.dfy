/** The epoch resolver of the backend (backend/src/services/aero-events.ts):
    the latest distributed epoch per gauge, the claim epoch and period derived
    from it, and the fee-excluded claim sums. The fetches themselves are the
    page loop of `Paging.FetchAll`; here their results arrive as sequences. */
module AeroEvents {
  import opened Common
  import opened BackendTypes
  import Paging

  /** `ORIGIN_TIMESTAMP`: the period start of a gauge never distributed to. */
  const OriginTimestamp: nat := 0

  // ---------------------------------------------------------------- LP collaterals

  /** One indexed `AeroGauge` entity as the gauge query returns it. */
  datatype AeroGaugeRow = AeroGaugeRow(gauge: string, token: string)

  /** `getAeroLPCollaterals`: a single, unpaged query with `first: 1000`, so only
      the first `PageSize` gauges in the backend's order come back, each turned
      into a (gauge, token) pair. */
  function AeroLpCollaterals(gauges: seq<AeroGaugeRow>): (r: seq<AeroLpCollateral>)
    ensures |r| == if |gauges| <= Paging.PageSize then |gauges| else Paging.PageSize
    ensures forall i :: 0 <= i < |r| ==> r[i].gauge == gauges[i].gauge && r[i].token == gauges[i].token
  {
    var first := if |gauges| <= Paging.PageSize then gauges else gauges[..Paging.PageSize];
    seq(|first|, i requires 0 <= i < |first| => AeroLpCollateral(first[i].token, first[i].gauge))
  }

  // ---------------------------------------------------------------- latest distribution per gauge

  /** The `{ epoch, timestamp }` kept per gauge. */
  datatype Latest = Latest(epoch: nat, timestamp: nat)

  /** What the scan has kept for gauge `g` after the events `events`: an event of
      `g` replaces the kept entry when there is none or when its epoch is
      strictly larger. */
  function LatestOf(events: seq<DistributedEvent>, g: string): Option<Latest> {
    if events == [] then None
    else
      var kept, e := LatestOf(events[..|events| - 1], g), events[|events| - 1];
      if e.gauge == g && (kept.None? || e.epoch > kept.value.epoch) then Some(Latest(e.epoch, e.timestamp))
      else kept
  }

  predicate IsFirstMaximum(events: seq<DistributedEvent>, g: string, i: int)
    requires 0 <= i < |events|
  {
    && events[i].gauge == g
    && (forall j :: 0 <= j < |events| && events[j].gauge == g ==> events[j].epoch <= events[i].epoch)
    && (forall j :: 0 <= j < i && events[j].gauge == g ==> events[j].epoch < events[i].epoch)
  }

  lemma {:induction false} LatestOfNone(events: seq<DistributedEvent>, g: string)
    ensures LatestOf(events, g).None? <==> forall i :: 0 <= i < |events| ==> events[i].gauge != g
  {
    if events != [] {
      var init := events[..|events| - 1];
      LatestOfNone(init, g);
      assert forall i :: 0 <= i < |init| ==> init[i] == events[i];
    }
  }

  /** The scan's entry for `g` is the epoch and timestamp of the FIRST event of
      `g` with the largest epoch: no event of `g` has a larger epoch, and every
      earlier event of `g` has a strictly smaller one. */
  lemma {:induction false} LatestOfIsFirstMaximum(events: seq<DistributedEvent>, g: string)
    requires LatestOf(events, g).Some?
    ensures exists i ::
      && 0 <= i < |events|
      && IsFirstMaximum(events, g, i)
      && LatestOf(events, g).value == Latest(events[i].epoch, events[i].timestamp)
  {
    var init, e := events[..|events| - 1], events[|events| - 1];
    var kept := LatestOf(init, g);
    var n := |events| - 1;
    if e.gauge == g && (kept.None? || e.epoch > kept.value.epoch) {
      if kept.Some? {
        LatestOfIsFirstMaximum(init, g);
        var k :| 0 <= k < |init| && IsFirstMaximum(init, g, k) && kept.value == Latest(init[k].epoch, init[k].timestamp);
        ExtendByLarger(events, g, k);
      } else {
        LatestOfNone(init, g);
        assert forall j :: 0 <= j < n ==> events[j] == init[j];
      }
      assert IsFirstMaximum(events, g, n);
    } else {
      LatestOfIsFirstMaximum(init, g);
      var k :| 0 <= k < |init| && IsFirstMaximum(init, g, k) && kept.value == Latest(init[k].epoch, init[k].timestamp);
      ExtendByOther(events, g, k);
    }
  }

  lemma ExtendByLarger(events: seq<DistributedEvent>, g: string, k: nat)
    requires |events| > 0 && k < |events| - 1
    requires IsFirstMaximum(events[..|events| - 1], g, k)
    requires events[|events| - 1].gauge == g && events[|events| - 1].epoch > events[k].epoch
    ensures IsFirstMaximum(events, g, |events| - 1)
  {
    var init := events[..|events| - 1];
    assert forall j :: 0 <= j < |init| ==> init[j] == events[j];
  }

  lemma ExtendByOther(events: seq<DistributedEvent>, g: string, k: nat)
    requires |events| > 0 && k < |events| - 1
    requires IsFirstMaximum(events[..|events| - 1], g, k)
    requires events[|events| - 1].gauge != g || events[|events| - 1].epoch <= events[k].epoch
    ensures IsFirstMaximum(events, g, k)
  {
    var init := events[..|events| - 1];
    assert forall j :: 0 <= j < |init| ==> init[j] == events[j];
  }

  /** The map entry for `g`, if any (`latestPerGauge.get(g)`). */
  function Lookup(latest: map<string, Latest>, g: string): Option<Latest> {
    if g in latest then Some(latest[g]) else None
  }

  /** `getLatestDistributedEpochPerGauge` over the fetched distribution events. */
  method LatestDistributedEpochPerGauge(events: seq<DistributedEvent>) returns (latest: map<string, Latest>)
    ensures forall g :: Lookup(latest, g) == LatestOf(events, g)
  {
    latest := map[];
    for i := 0 to |events|
      invariant forall g :: Lookup(latest, g) == LatestOf(events[..i], g)
    {
      assert events[..i + 1][..i] == events[..i];
      var event := events[i];
      if event.gauge !in latest || event.epoch > latest[event.gauge].epoch {
        latest := latest[event.gauge := Latest(event.epoch, event.timestamp)];
      }
    }
    assert events[..|events|] == events;
  }

  // ---------------------------------------------------------------- claim sums

  /** A claim's `total` includes the fee; the amount for distribution is
      `total - claimFee` (a BigInt difference, so not clamped at zero). */
  function Net(c: ClaimedEvent): int {
    c.total - c.claimFee
  }

  function TotalNet(claims: seq<ClaimedEvent>): int {
    if claims == [] then 0 else TotalNet(claims[..|claims| - 1]) + Net(claims[|claims| - 1])
  }

  /** The claims through gauge `g` recorded at epoch `ep`, in order. */
  function Matching(claims: seq<ClaimedEvent>, g: string, ep: nat): seq<ClaimedEvent> {
    if claims == [] then []
    else
      var init, c := claims[..|claims| - 1], claims[|claims| - 1];
      Matching(init, g, ep) + (if c.gauge == g && c.epoch == ep then [c] else [])
  }

  /** A claim is counted exactly when it is one of the claims, through `g`, at
      epoch `ep`. */
  lemma {:induction false} MatchingMembers(claims: seq<ClaimedEvent>, g: string, ep: nat)
    ensures forall c :: c in Matching(claims, g, ep) <==> c in claims && c.gauge == g && c.epoch == ep
  {
    if claims != [] {
      var init, c := claims[..|claims| - 1], claims[|claims| - 1];
      MatchingMembers(init, g, ep);
      assert claims == init + [c];
      assert forall x :: x in claims <==> x in init || x == c;
    }
  }

  /** The claims that do not match, in order. */
  function NotMatching(claims: seq<ClaimedEvent>, g: string, ep: nat): seq<ClaimedEvent> {
    if claims == [] then []
    else
      var init, c := claims[..|claims| - 1], claims[|claims| - 1];
      NotMatching(init, g, ep) + (if c.gauge == g && c.epoch == ep then [] else [c])
  }

  lemma {:induction false} TotalNetAppend(a: seq<ClaimedEvent>, b: seq<ClaimedEvent>)
    ensures TotalNet(a + b) == TotalNet(a) + TotalNet(b)
    decreases |b|
  {
    if b == [] {
      assert a + b == a;
    } else {
      assert (a + b)[..|a + b| - 1] == a + b[..|b| - 1];
      TotalNetAppend(a, b[..|b| - 1]);
    }
  }

  /** Every claim is counted once: the claims of one (gauge, epoch) and all the
      others together make up the whole net total. */
  lemma {:induction false} TotalNetSplits(claims: seq<ClaimedEvent>, g: string, ep: nat)
    ensures TotalNet(claims) == TotalNet(Matching(claims, g, ep)) + TotalNet(NotMatching(claims, g, ep))
  {
    if claims != [] {
      var init, c := claims[..|claims| - 1], claims[|claims| - 1];
      var m, n := Matching(init, g, ep), NotMatching(init, g, ep);
      TotalNetSplits(init, g, ep);
      assert TotalNet(claims) == TotalNet(init) + Net(c);
      if c.gauge == g && c.epoch == ep {
        assert Matching(claims, g, ep) == m + [c] && NotMatching(claims, g, ep) == n + [];
        assert TotalNet(m + [c]) == TotalNet(m) + Net(c) by {
          assert (m + [c])[..|m + [c]| - 1] == m;
        }
        assert n + [] == n;
      } else {
        assert Matching(claims, g, ep) == m + [] && NotMatching(claims, g, ep) == n + [c];
        assert TotalNet(n + [c]) == TotalNet(n) + Net(c) by {
          assert (n + [c])[..|n + [c]| - 1] == n;
        }
        assert m + [] == m;
      }
    }
  }

  /** A claim through another gauge or at another epoch adds nothing. */
  lemma MatchingIgnoresOthers(claims: seq<ClaimedEvent>, c: ClaimedEvent, g: string, ep: nat)
    requires c.gauge != g || c.epoch != ep
    ensures Matching(claims + [c], g, ep) == Matching(claims, g, ep)
  {
    assert (claims + [c])[..|claims|] == claims;
    assert Matching(claims, g, ep) + [] == Matching(claims, g, ep);
  }

  /** The `where` of the claim query: `timestamp_gte: start` and
      `timestamp_lt: end` with a period, the half-open `[start, end)`; both
      variables are `null` without one, and then every claim passes. */
  predicate InClaimWindow(c: ClaimedEvent, period: Option<DistributionPeriod>) {
    period.None? || period.value.startTimestamp <= c.timestamp < period.value.endTimestamp
  }

  function ClaimFilter(period: Option<DistributionPeriod>): ClaimedEvent -> bool {
    c => InClaimWindow(c, period)
  }

  /** The claims a fetch for `period` returns from the indexed claim rows. */
  function ClaimsIn(store: seq<Paging.Row<ClaimedEvent>>, period: Option<DistributionPeriod>): seq<ClaimedEvent> {
    Paging.Items(Paging.Where(store, ClaimFilter(period)))
  }

  /** The rows of a period's claim fetch are the stored claim rows stamped
      inside the half-open period, and no others. */
  lemma ClaimsInWindow(store: seq<Paging.Row<ClaimedEvent>>, period: DistributionPeriod)
    ensures forall r :: r in Paging.Where(store, ClaimFilter(Some(period))) <==>
      r in store && period.startTimestamp <= r.item.timestamp < period.endTimestamp
  {
    Paging.WhereMembers(store, ClaimFilter(Some(period)));
  }

  /** `getClaimedEvents`: the page loop over the claim rows inside the period
      (every claim row without one), each row turned into its event. */
  method GetClaimedEvents(store: seq<Paging.Row<ClaimedEvent>>, period: Option<DistributionPeriod>)
    returns (events: seq<ClaimedEvent>)
    requires Paging.IdsAscending(store)
    ensures events == ClaimsIn(store, period)
  {
    Paging.WhereAscending(store, ClaimFilter(period));
    var rows, _ := Paging.FetchAll(Paging.Where(store, ClaimFilter(period)));
    events := Paging.Items(rows);
  }

  /** `getTotalClaimedInPeriod`: the sum of `total - claimFee` over the claims
      the period's fetch returns. */
  method TotalClaimedInPeriod(store: seq<Paging.Row<ClaimedEvent>>, period: DistributionPeriod) returns (totalClaimed: int)
    requires Paging.IdsAscending(store)
    ensures totalClaimed == TotalNet(ClaimsIn(store, Some(period)))
  {
    var claimedEvents := GetClaimedEvents(store, Some(period));
    totalClaimed := 0;
    for i := 0 to |claimedEvents|
      invariant totalClaimed == TotalNet(claimedEvents[..i])
    {
      assert claimedEvents[..i + 1][..i] == claimedEvents[..i];
      totalClaimed := totalClaimed + (claimedEvents[i].total - claimedEvents[i].claimFee);
    }
    assert claimedEvents[..|claimedEvents|] == claimedEvents;
  }

  // ---------------------------------------------------------------- indexed timestamp

  function OrZero(ts: Option<nat>): nat {
    if ts.Some? then ts.value else 0
  }

  /** The max-of-three in `getCurrentBlockTimestamp`: the latest claim, stake
      and distribution timestamps, a missing one counting as 0. */
  function IndexedTimestamp(claimTs: Option<nat>, stakeTs: Option<nat>, distTs: Option<nat>): (ts: nat)
    ensures OrZero(claimTs) <= ts && OrZero(stakeTs) <= ts && OrZero(distTs) <= ts
    ensures ts == OrZero(claimTs) || ts == OrZero(stakeTs) || ts == OrZero(distTs)
  {
    var c, s, d := OrZero(claimTs), OrZero(stakeTs), OrZero(distTs);
    var ts := if c > s then c else s;
    if ts > d then ts else d
  }

  /** `getCurrentBlockTimestamp` with the wall clock as a parameter: the indexed
      timestamp, or the wall-clock seconds when nothing is indexed (or all
      indexed timestamps are 0). */
  function CurrentBlockTimestamp(claimTs: Option<nat>, stakeTs: Option<nat>, distTs: Option<nat>, nowSeconds: nat): (ts: nat)
    ensures IndexedTimestamp(claimTs, stakeTs, distTs) != 0 ==> ts == IndexedTimestamp(claimTs, stakeTs, distTs)
    ensures OrZero(claimTs) == 0 && OrZero(stakeTs) == 0 && OrZero(distTs) == 0 ==> ts == nowSeconds
  {
    var ts := IndexedTimestamp(claimTs, stakeTs, distTs);
    if ts == 0 then nowSeconds else ts
  }

  // ---------------------------------------------------------------- per-gauge distribution info

  /** `getGaugeDistributionInfo`: one entry per LP collateral, in order, whose
      claim epoch is one past the gauge's latest distributed epoch (0 for a gauge
      never distributed to), whose period runs from that distribution's
      timestamp (or the origin) to `currentTimestamp`, and whose total is the net
      sum of the gauge's claims at the claim epoch. */
  method GaugeDistributionInfos(
    lpCollaterals: seq<AeroLpCollateral>,
    distributedEvents: seq<DistributedEvent>,
    allClaims: seq<ClaimedEvent>,
    currentTimestamp: nat)
    returns (result: seq<GaugeDistributionInfo>)
    ensures |result| == |lpCollaterals|
    ensures forall i :: 0 <= i < |result| ==>
      var lp, info, d := lpCollaterals[i], result[i], LatestOf(distributedEvents, lpCollaterals[i].gauge);
      && info.gauge == lp.gauge && info.token == lp.token
      && info.period.endTimestamp == currentTimestamp
      && (d.None? ==> info.claimEpoch == 0 && info.latestDistributedEpoch == 0
                      && info.period.startTimestamp == OriginTimestamp)
      && (d.Some? ==> info.claimEpoch == d.value.epoch + 1 && info.latestDistributedEpoch == d.value.epoch
                      && info.period.startTimestamp == d.value.timestamp)
      && info.totalRewards == TotalNet(Matching(allClaims, lp.gauge, info.claimEpoch))
  {
    if |lpCollaterals| == 0 {
      return [];
    }
    var latestDistributed := LatestDistributedEpochPerGauge(distributedEvents);
    result := [];
    for k := 0 to |lpCollaterals|
      invariant |result| == k
      invariant forall i :: 0 <= i < k ==>
        var lp, info, d := lpCollaterals[i], result[i], LatestOf(distributedEvents, lpCollaterals[i].gauge);
        && info.gauge == lp.gauge && info.token == lp.token
        && info.period.endTimestamp == currentTimestamp
        && (d.None? ==> info.claimEpoch == 0 && info.latestDistributedEpoch == 0
                        && info.period.startTimestamp == OriginTimestamp)
        && (d.Some? ==> info.claimEpoch == d.value.epoch + 1 && info.latestDistributedEpoch == d.value.epoch
                        && info.period.startTimestamp == d.value.timestamp)
        && info.totalRewards == TotalNet(Matching(allClaims, lp.gauge, info.claimEpoch))
    {
      var lp := lpCollaterals[k];
      var distributed := Lookup(latestDistributed, lp.gauge);
      var claimEpoch: nat := if distributed.Some? then distributed.value.epoch + 1 else 0;
      var totalRewards := SumClaimsAt(allClaims, lp.gauge, claimEpoch);
      var info := GaugeDistributionInfo(
        lp.gauge,
        lp.token,
        DistributionPeriod(if distributed.Some? then distributed.value.timestamp else OriginTimestamp, currentTimestamp),
        if distributed.Some? then distributed.value.epoch else 0,
        claimEpoch,
        totalRewards);
      result := result + [info];
    }
  }

  /** The inner loop of `getGaugeDistributionInfo`: the net amounts of the
      claims through gauge `g` at epoch `ep`. */
  method SumClaimsAt(allClaims: seq<ClaimedEvent>, g: string, ep: nat) returns (totalRewards: int)
    ensures totalRewards == TotalNet(Matching(allClaims, g, ep))
  {
    totalRewards := 0;
    for i := 0 to |allClaims|
      invariant totalRewards == TotalNet(Matching(allClaims[..i], g, ep))
    {
      assert allClaims[..i + 1][..i] == allClaims[..i];
      var claim := allClaims[i];
      ghost var m := Matching(allClaims[..i], g, ep);
      if claim.gauge == g && claim.epoch == ep {
        assert Matching(allClaims[..i + 1], g, ep) == m + [claim];
        assert TotalNet(m + [claim]) == TotalNet(m) + Net(claim) by {
          assert (m + [claim])[..|m + [claim]| - 1] == m;
        }
        totalRewards := totalRewards + (claim.total - claim.claimFee);
      } else {
        assert Matching(allClaims[..i + 1], g, ep) == m + [];
        assert m + [] == m;
      }
    }
    assert allClaims[..|allClaims|] == allClaims;
  }

  /** The worked example of a gauge whose latest distribution was epoch 2: its
      claim epoch is 3, and of a claim of 1000 at epoch 2 and a claim of 500 with
      fee 50 at epoch 3 only the second counts, for 450. */
  lemma ClaimEpochExample()
    ensures var g := "0xgauge";
      var dist := [DistributedEvent(g, 4, 900, 2, 10, 100, "0xd")];
      var claims := [ClaimedEvent(g, 1000, 0, 2, 11, 110, "0xa"), ClaimedEvent(g, 500, 50, 3, 12, 120, "0xb")];
      && LatestOf(dist, g) == Some(Latest(2, 100))
      && TotalNet(Matching(claims, g, LatestOf(dist, g).value.epoch + 1)) == 450
  {
    var g := "0xgauge";
    var dist := [DistributedEvent(g, 4, 900, 2, 10, 100, "0xd")];
    assert dist[..0] == [];
    var claims := [ClaimedEvent(g, 1000, 0, 2, 11, 110, "0xa"), ClaimedEvent(g, 500, 50, 3, 12, 120, "0xb")];
    assert claims[..1] == [claims[0]] && [claims[0]][..0] == [];
    assert Matching(claims[..1], g, 3) == Matching([], g, 3) + [];
    assert Matching(claims, g, 3) == [] + [] + [claims[1]];
    assert TotalNet([claims[1]]) == TotalNet([]) + Net(claims[1]);
  }
}
