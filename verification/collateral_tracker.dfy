/** The time-weighted average (TWA) engine of the backend
    (backend/src/services/collateral-tracker.ts): grouping and sorting the
    fetched collateral snapshots per trove, clamping a trove's life to the
    distribution period, and integrating its deposit over that window. */
module CollateralTracker {
  import opened Common
  import opened BackendTypes
  import StableSort

  // ---------------------------------------------------------------- active window

  /** The later of the trove's creation and the period start. */
  function ActiveStart(t: Trove, p: DistributionPeriod): nat {
    if t.createdAt > p.startTimestamp then t.createdAt else p.startTimestamp
  }

  /** The trove's closing time when it is set, non-zero (a `0n` is falsy and so
      counts as still open) and before the period end; otherwise the period end. */
  function ActiveEnd(t: Trove, p: DistributionPeriod): nat {
    if t.closedAt.Some? && t.closedAt.value != 0 && t.closedAt.value < p.endTimestamp
    then t.closedAt.value
    else p.endTimestamp
  }

  /** The active window lies inside both the period and the trove's life, and a
      closing time of 0 is the same as no closing time. */
  lemma ActiveWindowBounds(t: Trove, p: DistributionPeriod)
    ensures p.startTimestamp <= ActiveStart(t, p) && t.createdAt <= ActiveStart(t, p)
    ensures ActiveEnd(t, p) <= p.endTimestamp
    ensures t.closedAt.Some? && t.closedAt.value != 0 ==> ActiveEnd(t, p) <= t.closedAt.value
    ensures ActiveEnd(t.(closedAt := Some(0)), p) == ActiveEnd(t.(closedAt := None), p) == p.endTimestamp
  {
  }

  // ---------------------------------------------------------------- relevant snapshots

  predicate InWindow(x: CollateralSnapshot, start: nat, end: nat) {
    start <= x.timestamp <= end
  }

  /** The snapshots with a timestamp in `[start, end]`, both ends inclusive, in
      their given order. */
  function Relevant(snaps: seq<CollateralSnapshot>, start: nat, end: nat): (r: seq<CollateralSnapshot>)
    ensures |r| <= |snaps|
    ensures forall i :: 0 <= i < |r| ==> InWindow(r[i], start, end)
  {
    if snaps == [] then []
    else
      var init, x := snaps[..|snaps| - 1], snaps[|snaps| - 1];
      Relevant(init, start, end) + (if InWindow(x, start, end) then [x] else [])
  }

  /** Exactly the snapshots inside the window are relevant. */
  lemma {:induction false} RelevantMembers(snaps: seq<CollateralSnapshot>, start: nat, end: nat)
    ensures forall x :: x in Relevant(snaps, start, end) <==> x in snaps && InWindow(x, start, end)
  {
    if snaps != [] {
      RelevantMembers(snaps[..|snaps| - 1], start, end);
      assert forall x :: x in snaps[..|snaps| - 1] ==> x in snaps;
    }
  }

  predicate SortedByTime(s: seq<CollateralSnapshot>) {
    forall i, j :: 0 <= i < j < |s| ==> s[i].timestamp <= s[j].timestamp
  }

  lemma {:induction false} RelevantKeepsOrder(snaps: seq<CollateralSnapshot>, start: nat, end: nat)
    requires SortedByTime(snaps)
    ensures SortedByTime(Relevant(snaps, start, end))
  {
    if snaps != [] {
      var init := snaps[..|snaps| - 1];
      RelevantKeepsOrder(init, start, end);
      var r := Relevant(init, start, end);
      RelevantMembers(init, start, end);
      forall i | 0 <= i < |r| ensures r[i].timestamp <= snaps[|snaps| - 1].timestamp {
        assert r[i] in r;
        var k :| 0 <= k < |init| && init[k] == r[i];
      }
    }
  }

  // ---------------------------------------------------------------- the integration walk

  /** The walk's state: running weighted sum, last timestamp, last deposit. */
  datatype Walk = Walk(sum: nat, lastTimestamp: nat, lastDeposit: nat)

  /** One snapshot of the walk: at or before the last timestamp it only replaces
      the deposit; later, it first adds the deposit held since then times the gap. */
  function Step(w: Walk, x: CollateralSnapshot): Walk {
    if x.timestamp <= w.lastTimestamp then w.(lastDeposit := x.deposit)
    else Walk(w.sum + w.lastDeposit * (x.timestamp - w.lastTimestamp), x.timestamp, x.deposit)
  }

  function Sweep(s: seq<CollateralSnapshot>, w: Walk): Walk {
    if s == [] then w else Step(Sweep(s[..|s| - 1], w), s[|s| - 1])
  }

  /** The walk starts at the window start holding the first relevant deposit and
      ends with the tail segment up to the window end. */
  function WeightedSum(rel: seq<CollateralSnapshot>, start: nat, end: nat): nat
    requires rel != []
  {
    var w := Sweep(rel, Walk(0, start, rel[0].deposit));
    if w.lastTimestamp < end then w.sum + w.lastDeposit * (end - w.lastTimestamp) else w.sum
  }

  /** BigInt division, which truncates; on non-negative operands the floor. */
  function FloorDiv(a: nat, b: nat): nat
    requires b > 0
  {
    a / b
  }

  /** The result `calculateTWA` computes for one trove. */
  function Twa(t: Trove, snaps: seq<CollateralSnapshot>, p: DistributionPeriod): TroveCollateralTwa {
    var start, end := ActiveStart(t, p), ActiveEnd(t, p);
    if start >= end then
      TroveCollateralTwa(t.id, t.borrower, t.collateralId, 0, 0)
    else
      var rel := Relevant(snaps, start, end);
      if rel == [] then TroveCollateralTwa(t.id, t.borrower, t.collateralId, t.deposit, end - start)
      else TroveCollateralTwa(t.id, t.borrower, t.collateralId, FloorDiv(WeightedSum(rel, start, end), end - start), end - start)
  }

  /** The loop of `calculateTWA` over the relevant snapshots, with the tail
      segment up to the window end. */
  method Integrate(relevant: seq<CollateralSnapshot>, start: nat, end: nat) returns (timeWeightedSum: nat)
    requires relevant != []
    ensures timeWeightedSum == WeightedSum(relevant, start, end)
  {
    timeWeightedSum := 0;
    var lastTimestamp: nat := start;
    var lastDeposit: nat := relevant[0].deposit;
    for i := 0 to |relevant|
      invariant Walk(timeWeightedSum, lastTimestamp, lastDeposit)
                == Sweep(relevant[..i], Walk(0, start, relevant[0].deposit))
    {
      ghost var before := Walk(timeWeightedSum, lastTimestamp, lastDeposit);
      assert Sweep(relevant[..i + 1], Walk(0, start, relevant[0].deposit)) == Step(before, relevant[i]) by {
        assert relevant[..i + 1][..i] == relevant[..i];
      }
      var snapshot := relevant[i];
      if snapshot.timestamp <= lastTimestamp {
        lastDeposit := snapshot.deposit;
        continue;
      }
      var duration := snapshot.timestamp - lastTimestamp;
      timeWeightedSum := timeWeightedSum + lastDeposit * duration;
      lastTimestamp := snapshot.timestamp;
      lastDeposit := snapshot.deposit;
    }
    assert relevant[..|relevant|] == relevant;
    if lastTimestamp < end {
      assert timeWeightedSum + lastDeposit * (end - lastTimestamp) == WeightedSum(relevant, start, end);
      timeWeightedSum := timeWeightedSum + lastDeposit * (end - lastTimestamp);
    }
    assert timeWeightedSum == WeightedSum(relevant, start, end);
  }

  /** `calculateTWA`. */
  method CalculateTwa(trove: Trove, snapshots: seq<CollateralSnapshot>, period: DistributionPeriod)
    returns (r: TroveCollateralTwa)
    ensures r == Twa(trove, snapshots, period)
  {
    var troveStart := if trove.createdAt > period.startTimestamp then trove.createdAt else period.startTimestamp;
    var troveEnd := if trove.closedAt.Some? && trove.closedAt.value != 0 && trove.closedAt.value < period.endTimestamp
                    then trove.closedAt.value else period.endTimestamp;
    assert troveStart == ActiveStart(trove, period) && troveEnd == ActiveEnd(trove, period);
    if troveStart >= troveEnd {
      return TroveCollateralTwa(trove.id, trove.borrower, trove.collateralId, 0, 0);
    }
    var activeTime := troveEnd - troveStart;
    if |snapshots| == 0 {
      return TroveCollateralTwa(trove.id, trove.borrower, trove.collateralId, trove.deposit, activeTime);
    }
    var relevant := Relevant(snapshots, troveStart, troveEnd);
    if |relevant| == 0 {
      return TroveCollateralTwa(trove.id, trove.borrower, trove.collateralId, trove.deposit, activeTime);
    }
    var timeWeightedSum := Integrate(relevant, troveStart, troveEnd);
    r := TroveCollateralTwa(trove.id, trove.borrower, trove.collateralId, FloorDiv(timeWeightedSum, activeTime), activeTime);
  }

  // ---------------------------------------------------------------- what the result means

  /** The identifying fields are copied; a trove with an empty active window gets
      zero for both numbers; otherwise the active time is the (positive) window
      length; with no snapshot inside the window the average is the current
      deposit. */
  lemma TwaShape(t: Trove, snaps: seq<CollateralSnapshot>, p: DistributionPeriod)
    ensures var r := Twa(t, snaps, p);
      && r.troveId == t.id && r.borrower == t.borrower && r.collateralId == t.collateralId
      && (ActiveStart(t, p) >= ActiveEnd(t, p) ==> r.timeWeightedAverage == 0 && r.activeTime == 0)
      && (ActiveStart(t, p) < ActiveEnd(t, p) ==> r.activeTime == ActiveEnd(t, p) - ActiveStart(t, p) > 0)
      && (ActiveStart(t, p) < ActiveEnd(t, p) && Relevant(snaps, ActiveStart(t, p), ActiveEnd(t, p)) == []
          ==> r.timeWeightedAverage == t.deposit)
  {
  }

  function MinDeposit(s: seq<CollateralSnapshot>): (m: nat)
    requires s != []
    ensures forall i :: 0 <= i < |s| ==> m <= s[i].deposit
    ensures exists i :: 0 <= i < |s| && s[i].deposit == m
  {
    if |s| == 1 then s[0].deposit
    else
      var m' := MinDeposit(s[..|s| - 1]);
      assert forall i :: 0 <= i < |s| - 1 ==> s[..|s| - 1][i] == s[i];
      if s[|s| - 1].deposit < m' then s[|s| - 1].deposit else m'
  }

  function MaxDeposit(s: seq<CollateralSnapshot>): (m: nat)
    requires s != []
    ensures forall i :: 0 <= i < |s| ==> s[i].deposit <= m
    ensures exists i :: 0 <= i < |s| && s[i].deposit == m
  {
    if |s| == 1 then s[0].deposit
    else
      var m' := MaxDeposit(s[..|s| - 1]);
      assert forall i :: 0 <= i < |s| - 1 ==> s[..|s| - 1][i] == s[i];
      if s[|s| - 1].deposit > m' then s[|s| - 1].deposit else m'
  }

  lemma MulMonotone(a: nat, b: nat, d: nat)
    requires a <= b
    ensures a * d <= b * d
  {
  }

  /** Adding one more segment of length `tX - tM` at a deposit within
      `[lo, hi]` keeps the running sum within the same bounds. */
  lemma AddSegment(s0: nat, sM: nat, tW: nat, tM: nat, tX: nat, lo: nat, hi: nat, d: nat)
    requires tW <= tM <= tX && lo <= d <= hi
    requires s0 + lo * (tM - tW) <= sM <= s0 + hi * (tM - tW)
    ensures s0 + lo * (tX - tW) <= sM + d * (tX - tM) <= s0 + hi * (tX - tW)
  {
    var g := tX - tM;
    MulMonotone(lo, d, g);
    MulMonotone(d, hi, g);
    assert lo * (tX - tW) == lo * (tM - tW) + lo * g;
    assert hi * (tX - tW) == hi * (tM - tW) + hi * g;
  }

  /** Along the walk the timestamp only moves forward, the deposit held is always
      within `[lo, hi]`, and every segment adds between `lo` and `hi` times its
      length. */
  lemma {:induction false} SweepBounds(s: seq<CollateralSnapshot>, w: Walk, lo: nat, hi: nat, end: nat)
    requires forall i :: 0 <= i < |s| ==> lo <= s[i].deposit <= hi && s[i].timestamp <= end
    requires lo <= w.lastDeposit <= hi && w.lastTimestamp <= end
    ensures var v := Sweep(s, w);
      && w.lastTimestamp <= v.lastTimestamp <= end
      && lo <= v.lastDeposit <= hi
      && w.sum + lo * (v.lastTimestamp - w.lastTimestamp) <= v.sum
      && v.sum <= w.sum + hi * (v.lastTimestamp - w.lastTimestamp)
  {
    if s != [] {
      var init, x := s[..|s| - 1], s[|s| - 1];
      assert forall i :: 0 <= i < |init| ==> init[i] == s[i];
      SweepBounds(init, w, lo, hi, end);
      var m := Sweep(init, w);
      assert Sweep(s, w) == Step(m, x);
      if x.timestamp > m.lastTimestamp {
        AddSegment(w.sum, m.sum, w.lastTimestamp, m.lastTimestamp, x.timestamp, lo, hi, m.lastDeposit);
      }
    }
  }

  lemma FloorDivBounds(sum: nat, time: nat, lo: nat, hi: nat)
    requires time > 0
    requires lo * time <= sum <= hi * time
    ensures lo <= sum / time <= hi
  {
    var q, rem := sum / time, sum % time;
    assert sum == q * time + rem && rem < time;
    if q < lo {
      assert (q + 1) * time == q * time + time;
      MulMonotone(q + 1, lo, time);
      assert false;
    }
    if q > hi {
      MulMonotone(hi + 1, q, time);
    }
  }

  /** The segment lengths add up to the window length, so the weighted sum lies
      between `lo` and `hi` times the window length. */
  lemma WeightedSumBounds(rel: seq<CollateralSnapshot>, start: nat, end: nat, lo: nat, hi: nat)
    requires rel != [] && start < end
    requires forall i :: 0 <= i < |rel| ==> lo <= rel[i].deposit <= hi && InWindow(rel[i], start, end)
    ensures lo * (end - start) <= WeightedSum(rel, start, end) <= hi * (end - start)
  {
    var w0 := Walk(0, start, rel[0].deposit);
    SweepBounds(rel, w0, lo, hi, end);
    var v := Sweep(rel, w0);
    var ws := WeightedSum(rel, start, end);
    if v.lastTimestamp < end {
      assert ws == v.sum + v.lastDeposit * (end - v.lastTimestamp);
      AddSegment(0, v.sum, start, v.lastTimestamp, end, lo, hi, v.lastDeposit);
    } else {
      assert ws == v.sum && v.lastTimestamp - start == end - start;
    }
  }

  /** The average lies between the smallest and the largest relevant deposit. */
  lemma TwaBounds(t: Trove, snaps: seq<CollateralSnapshot>, p: DistributionPeriod)
    requires ActiveStart(t, p) < ActiveEnd(t, p)
    requires Relevant(snaps, ActiveStart(t, p), ActiveEnd(t, p)) != []
    ensures var rel := Relevant(snaps, ActiveStart(t, p), ActiveEnd(t, p));
      MinDeposit(rel) <= Twa(t, snaps, p).timeWeightedAverage <= MaxDeposit(rel)
  {
    var start, end := ActiveStart(t, p), ActiveEnd(t, p);
    var rel := Relevant(snaps, start, end);
    var lo, hi := MinDeposit(rel), MaxDeposit(rel);
    var ws := WeightedSum(rel, start, end);
    WeightedSumBounds(rel, start, end, lo, hi);
    FloorDivBounds(ws, end - start, lo, hi);
    assert Twa(t, snaps, p).timeWeightedAverage == FloorDiv(ws, end - start);
  }

  // ---------------------------------------------------------------- the integral it computes

  /** The deposit of the last snapshot at or before second `tau`, if any. */
  function LatestAtOrBefore(rel: seq<CollateralSnapshot>, tau: int): Option<nat> {
    if rel == [] then None
    else if rel[|rel| - 1].timestamp <= tau then Some(rel[|rel| - 1].deposit)
    else LatestAtOrBefore(rel[..|rel| - 1], tau)
  }

  /** The deposit the trove held during second `tau` as the walk assumes it: the
      latest snapshot so far, or the first snapshot before any. */
  function DepositAt(rel: seq<CollateralSnapshot>, tau: int): nat
    requires rel != []
  {
    match LatestAtOrBefore(rel, tau)
    case Some(d) => d
    case None => rel[0].deposit
  }

  /** The deposit summed second by second over `[a, b)`. */
  function Integral(rel: seq<CollateralSnapshot>, a: int, b: int): nat
    requires rel != []
    decreases b - a
  {
    if b <= a then 0 else Integral(rel, a, b - 1) + DepositAt(rel, b - 1)
  }

  lemma {:induction false} IntegralSplit(rel: seq<CollateralSnapshot>, a: int, m: int, b: int)
    requires rel != [] && a <= m <= b
    ensures Integral(rel, a, b) == Integral(rel, a, m) + Integral(rel, m, b)
    decreases b - m
  {
    if b > m {
      IntegralSplit(rel, a, m, b - 1);
    }
  }

  lemma {:induction false} IntegralConstant(rel: seq<CollateralSnapshot>, a: int, b: int, v: nat)
    requires rel != [] && a <= b
    requires forall tau :: a <= tau < b ==> DepositAt(rel, tau) == v
    ensures Integral(rel, a, b) == v * (b - a)
    decreases b - a
  {
    if b > a {
      IntegralConstant(rel, a, b - 1, v);
    }
  }

  lemma {:induction false} IntegralAgree(r1: seq<CollateralSnapshot>, r2: seq<CollateralSnapshot>, a: int, b: int)
    requires r1 != [] && r2 != []
    requires forall tau :: a <= tau < b ==> DepositAt(r1, tau) == DepositAt(r2, tau)
    ensures Integral(r1, a, b) == Integral(r2, a, b)
    decreases b - a
  {
    if b > a {
      IntegralAgree(r1, r2, a, b - 1);
    }
  }

  /** A snapshot later than `tau` does not change the deposit held at `tau`. */
  lemma DepositAtExtend(rel: seq<CollateralSnapshot>, k: nat, tau: int)
    requires 1 <= k < |rel| && tau < rel[k].timestamp
    ensures DepositAt(rel[..k + 1], tau) == DepositAt(rel[..k], tau)
  {
    assert rel[..k + 1][..k] == rel[..k];
  }

  lemma DepositAtLast(rel: seq<CollateralSnapshot>, k: nat, tau: int)
    requires 1 <= k <= |rel| && rel[k - 1].timestamp <= tau
    ensures DepositAt(rel[..k], tau) == rel[k - 1].deposit
  {
  }

  /** For time-sorted snapshots inside the window, after `k` snapshots the walk
      stands at the `k`-th timestamp with the integral so far. */
  lemma {:induction false} SweepIsIntegral(rel: seq<CollateralSnapshot>, start: nat, k: nat)
    requires SortedByTime(rel)
    requires forall i :: 0 <= i < |rel| ==> start <= rel[i].timestamp
    requires 1 <= k <= |rel|
    ensures Sweep(rel[..k], Walk(0, start, rel[0].deposit))
            == Walk(Integral(rel[..k], start, rel[k - 1].timestamp), rel[k - 1].timestamp, rel[k - 1].deposit)
  {
    var w0 := Walk(0, start, rel[0].deposit);
    var x := rel[k - 1];
    assert rel[..k][..k - 1] == rel[..k - 1];
    if k == 1 {
      forall tau | start <= tau < x.timestamp ensures DepositAt(rel[..1], tau) == x.deposit {
        var one := rel[..1];
        assert one[|one| - 1] == x && one[..|one| - 1] == [];
        assert LatestAtOrBefore(one, tau) == LatestAtOrBefore([], tau);
      }
      IntegralConstant(rel[..1], start, x.timestamp, x.deposit);
    } else {
      SweepIsIntegral(rel, start, k - 1);
      var lastT := rel[k - 2].timestamp;
      forall tau | tau < x.timestamp
        ensures DepositAt(rel[..k], tau) == DepositAt(rel[..k - 1], tau)
      {
        DepositAtExtend(rel, k - 1, tau);
      }
      IntegralAgree(rel[..k], rel[..k - 1], start, lastT);
      if x.timestamp > lastT {
        IntegralSplit(rel[..k], start, lastT, x.timestamp);
        IntegralAgree(rel[..k], rel[..k - 1], lastT, x.timestamp);
        var prefix := rel[..k - 1];
        forall tau | lastT <= tau < x.timestamp ensures DepositAt(prefix, tau) == rel[k - 2].deposit {
          DepositAtLast(rel, k - 1, tau);
        }
        IntegralConstant(prefix, lastT, x.timestamp, rel[k - 2].deposit);
      }
    }
  }

  /** For time-sorted snapshots inside the window, the weighted sum is the
      integral of the step function that holds each snapshot's deposit from its
      timestamp to the next one (and the first deposit before it). */
  lemma WeightedSumIsIntegral(rel: seq<CollateralSnapshot>, start: nat, end: nat)
    requires rel != [] && SortedByTime(rel)
    requires forall i :: 0 <= i < |rel| ==> InWindow(rel[i], start, end)
    ensures WeightedSum(rel, start, end) == Integral(rel, start, end)
  {
    var n := |rel|;
    assert rel[..n] == rel;
    SweepIsIntegral(rel, start, n);
    var lastT := rel[n - 1].timestamp;
    IntegralSplit(rel, start, lastT, end);
    forall tau | lastT <= tau < end ensures DepositAt(rel, tau) == rel[n - 1].deposit {
      DepositAtLast(rel, n, tau);
    }
    IntegralConstant(rel, lastT, end, rel[n - 1].deposit);
  }

  /** When the snapshots come sorted by time (as `getSnapshotsForTroves` leaves
      them), the average is the floor of the second-by-second deposit integral
      over the active window divided by the active time. */
  lemma TwaIsAverageDeposit(t: Trove, snaps: seq<CollateralSnapshot>, p: DistributionPeriod)
    requires SortedByTime(snaps)
    requires ActiveStart(t, p) < ActiveEnd(t, p)
    requires Relevant(snaps, ActiveStart(t, p), ActiveEnd(t, p)) != []
    ensures var start, end := ActiveStart(t, p), ActiveEnd(t, p);
      Twa(t, snaps, p).timeWeightedAverage
      == Integral(Relevant(snaps, start, end), start, end) / (end - start)
  {
    var start, end := ActiveStart(t, p), ActiveEnd(t, p);
    RelevantKeepsOrder(snaps, start, end);
    WeightedSumIsIntegral(Relevant(snaps, start, end), start, end);
  }

  /** The example of a trove created before a [1000, 2000) period, never closed,
      with deposits 100 from 1000 and 300 from 1500: average 200 over 1000 s. */
  lemma TwaExample()
    ensures var t := Trove("0:1", "b", "0", 300, 500, None, 1500, "active");
      var snaps := [CollateralSnapshot("0:1", 100, 1000), CollateralSnapshot("0:1", 300, 1500)];
      Twa(t, snaps, DistributionPeriod(1000, 2000)).timeWeightedAverage == 200
      && Twa(t, snaps, DistributionPeriod(1000, 2000)).activeTime == 1000
  {
    var t := Trove("0:1", "b", "0", 300, 500, None, 1500, "active");
    var p := DistributionPeriod(1000, 2000);
    var snaps := [CollateralSnapshot("0:1", 100, 1000), CollateralSnapshot("0:1", 300, 1500)];
    assert ActiveStart(t, p) == 1000 && ActiveEnd(t, p) == 2000;
    assert snaps[..1] == [snaps[0]];
    assert [snaps[0]][..0] == [];
    assert Relevant(snaps, 1000, 2000) == snaps;
    var w0 := Walk(0, 1000, 100);
    assert Sweep([snaps[0]], w0) == Walk(0, 1000, 100);
    assert Sweep(snaps, w0) == Walk(50000, 1500, 300);
    assert WeightedSum(snaps, 1000, 2000) == 200000;
    assert Twa(t, snaps, p) == TroveCollateralTwa("0:1", "b", "0", FloorDiv(200000, 1000), 1000);
  }

  // ---------------------------------------------------------------- grouping the fetched rows

  function TimeLe(a: CollateralSnapshot, b: CollateralSnapshot): bool {
    a.timestamp <= b.timestamp
  }

  lemma TimeLeIsTotalPreorder()
    ensures StableSort.TotalPreorder(TimeLe)
  {
  }

  /** The comparator `(a, b) => a.timestamp < b.timestamp ? -1 : ... : 0` under
      the stable `Array.prototype.sort`. */
  function SortByTime(s: seq<CollateralSnapshot>): seq<CollateralSnapshot> {
    StableSort.Sort(s, TimeLe)
  }

  /** The fetched rows of one trove, in fetch order. */
  function RowsOf(rows: seq<CollateralSnapshot>, id: string): (r: seq<CollateralSnapshot>)
    ensures forall i :: 0 <= i < |r| ==> r[i].troveId == id
  {
    if rows == [] then []
    else RowsOf(rows[..|rows| - 1], id) + (if rows[|rows| - 1].troveId == id then [rows[|rows| - 1]] else [])
  }

  /** Sorting by timestamp orders the snapshots, keeps exactly the same
      snapshots, and keeps snapshots with equal timestamps in fetch order. */
  lemma SortByTimeFacts(s: seq<CollateralSnapshot>)
    ensures SortedByTime(SortByTime(s))
    ensures multiset(SortByTime(s)) == multiset(s)
    ensures forall t :: StableSort.TiedWith(SortByTime(s), t, TimeLe) == StableSort.TiedWith(s, t, TimeLe)
  {
    TimeLeIsTotalPreorder();
    StableSort.SortFacts(s, TimeLe);
  }

  /** The post-fetch part of `getSnapshotsForTroves`: an empty list per
      requested trove, each fetched row appended to its trove's list (rows of
      other troves dropped), then each list sorted by timestamp. */
  method GroupSnapshots(troveIds: seq<string>, rows: seq<CollateralSnapshot>)
    returns (byTrove: map<string, seq<CollateralSnapshot>>)
    ensures forall id :: id in byTrove <==> id in troveIds
    ensures forall id :: id in byTrove ==> byTrove[id] == SortByTime(RowsOf(rows, id))
  {
    byTrove := map[];
    for i := 0 to |troveIds|
      invariant forall id :: id in byTrove <==> id in troveIds[..i]
      invariant forall id :: id in byTrove ==> byTrove[id] == []
    {
      assert troveIds[..i + 1] == troveIds[..i] + [troveIds[i]];
      byTrove := byTrove[troveIds[i] := []];
    }
    assert troveIds[..|troveIds|] == troveIds;
    for i := 0 to |rows|
      invariant forall id :: id in byTrove <==> id in troveIds
      invariant forall id :: id in byTrove ==> byTrove[id] == RowsOf(rows[..i], id)
    {
      assert rows[..i + 1][..i] == rows[..i];
      var row := rows[i];
      if row.troveId in byTrove {
        byTrove := byTrove[row.troveId := byTrove[row.troveId] + [row]];
      }
    }
    assert rows[..|rows|] == rows;
    var pending := byTrove.Keys;
    while pending != {}
      invariant forall id :: id in byTrove <==> id in troveIds
      invariant forall id :: id in pending ==> id in byTrove && byTrove[id] == RowsOf(rows, id)
      invariant forall id :: id in byTrove && id !in pending ==> byTrove[id] == SortByTime(RowsOf(rows, id))
      decreases pending
    {
      var id :| id in pending;
      byTrove := byTrove[id := SortByTime(byTrove[id])];
      pending := pending - {id};
    }
  }

  /** The snapshot list of a trove, or none when the map has no entry (`?? []`). */
  function SnapshotsFor(byTrove: map<string, seq<CollateralSnapshot>>, id: string): seq<CollateralSnapshot> {
    if id in byTrove then byTrove[id] else []
  }

  /** `calculateTWAForTroves`: group the fetched rows for the troves' ids, then
      one result per trove, in input order. */
  method CalculateTwaForTroves(troves: seq<Trove>, rows: seq<CollateralSnapshot>, period: DistributionPeriod)
    returns (results: seq<TroveCollateralTwa>)
    ensures |results| == |troves|
    ensures forall i :: 0 <= i < |troves| ==>
      results[i] == Twa(troves[i], SortByTime(RowsOf(rows, troves[i].id)), period)
      && results[i].troveId == troves[i].id
  {
    var troveIds := seq(|troves|, i requires 0 <= i < |troves| => troves[i].id);
    var byTrove := GroupSnapshots(troveIds, rows);
    results := seq(|troves|, i requires 0 <= i < |troves| => Twa(troves[i], SnapshotsFor(byTrove, troves[i].id), period));
    forall i | 0 <= i < |troves| ensures troves[i].id in byTrove {
      assert troveIds[i] == troves[i].id;
    }
  }
}
