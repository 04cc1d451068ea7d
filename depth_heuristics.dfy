/**
 * The integer heuristics of the inter analysis: the minimum depth derived from the co-located
 * CUs of the first reference of each list, the blended neighbour average that lets a CU skip its
 * split, the per-CTU running average cost per depth, and the per-depth buffer sizes of create.
 */
module DepthHeuristics {
  import opened Common

  // ---------------------------------------------------------------------------------------
  // Minimum depth from the co-located CUs (compressInterCU_rd0_4)
  // ---------------------------------------------------------------------------------------

  /** The minimum (starting from 4) and four times the sum of the depths sampled so far. */
  datatype DepthStats = DepthStats(min: nat, sum: nat)

  /** The co-located depths sampled every fourth partition: the samples t < cnt are the
      depths at base + 4 * t. */
  function SampleStats(ds: seq<nat>, base: nat, cnt: nat): (s: DepthStats)
    requires base + 4 * cnt <= |ds| + 3
    ensures s.min <= 4
  {
    if cnt == 0 then DepthStats(4, 0)
    else
      var s := SampleStats(ds, base, cnt - 1);
      var d := ds[base + 4 * (cnt - 1)];
      DepthStats(if d < s.min then d else s.min, s.sum + d * 4)
  }

  /** The sampled minimum is a lower bound of every sample and is either one of them or the
      starting 4. */
  lemma {:induction false} SampleMinFacts(ds: seq<nat>, base: nat, cnt: nat)
    requires base + 4 * cnt <= |ds| + 3
    ensures var s := SampleStats(ds, base, cnt);
      && (forall t :: 0 <= t < cnt ==> s.min <= ds[base + 4 * t])
      && (s.min == 4 || exists t :: 0 <= t < cnt && ds[base + 4 * t] == s.min)
  {
    if cnt > 0 {
      SampleMinFacts(ds, base, cnt - 1);
      var p := SampleStats(ds, base, cnt - 1);
      var s := SampleStats(ds, base, cnt);
      if s.min != 4 && s.min != ds[base + 4 * (cnt - 1)] {
        var t :| 0 <= t < cnt - 1 && ds[base + 4 * t] == p.min;
      }
    }
  }

  /** Every sample is at least the minimum, so the sum is at least four times the minimum per
      sample. */
  lemma {:induction false} SampleSumAtLeast(ds: seq<nat>, base: nat, cnt: nat)
    requires base + 4 * cnt <= |ds| + 3
    ensures var s := SampleStats(ds, base, cnt);
      s.sum >= cnt * (4 * s.min)
  {
    if cnt > 0 {
      SampleSumAtLeast(ds, base, cnt - 1);
      var p := SampleStats(ds, base, cnt - 1);
      var s := SampleStats(ds, base, cnt);
      var m: nat, pm: nat := 4 * s.min, 4 * p.min;
      MulMonotone(cnt - 1, m, pm);
      assert cnt * m == (cnt - 1) * m + m;
    }
  }

  lemma MulMonotone(k: nat, a: nat, b: nat)
    requires a <= b
    ensures k * a <= k * b
  {
  }

  /** A getDepth value is an unsigned char; with at most 256 partitions per CTU the 32-bit sums
      of the sampling loop cannot wrap. */
  lemma {:induction false} SampleSumFits(ds: seq<nat>, base: nat, cnt: nat)
    requires base + 4 * cnt <= |ds| + 3
    requires forall j :: 0 <= j < |ds| ==> ds[j] < 256
    ensures SampleStats(ds, base, cnt).sum <= 1020 * cnt
  {
    if cnt > 0 {
      SampleSumFits(ds, base, cnt - 1);
    }
  }

  /** The number of samples of a CU of numPartitions partitions: i = 0, 4, 8, ... below it. */
  function SampleCount(numPartitions: nat): nat
  {
    (numPartitions + 3) / 4
  }

  /** The stats of list 1: its samples when the list has a reference, else the initial values. */
  function ListStats(ds: Option<seq<nat>>, base: nat, cnt: nat): (s: DepthStats)
    requires ds.Some? ==> base + 4 * cnt <= |ds.value| + 3
    ensures s.min <= 4
  {
    if ds.Some? then SampleStats(ds.value, base, cnt) else DepthStats(4, 0)
  }

  /**
   * The minimum depth at which the CU is analysed.  It is the least sampled co-located depth
   * of either list, lowered by one unless the QP dropped since the reference or the doubled
   * average depth exceeds twice the minimum by more than one.  That difference is computed in
   * 32-bit unsigned arithmetic and wraps when the average is below twice the minimum.
   */
  function DeriveMinDepth(ds0: seq<nat>, ds1: Option<seq<nat>>, absPartIdx: nat, numPartitions: nat,
                          currentQP: int, previousQP: int): (m: nat)
    requires 0 < numPartitions
    requires absPartIdx + numPartitions <= |ds0|
    requires ds1.Some? ==> absPartIdx + numPartitions <= |ds1.value|
    ensures m <= 4
  {
    var cnt := SampleCount(numPartitions);
    var s0 := SampleStats(ds0, absPartIdx, cnt);
    var s1 := ListStats(ds1, absPartIdx, cnt);
    var avgDepth2 := (s0.sum + s1.sum) / numPartitions;
    var minDepth := Min(s0.min, s1.min);
    var delta := if currentQP - previousQP < 0 || U32(avgDepth2 - 2 * minDepth) > 1 then 0 else 1;
    if minDepth > 0 then minDepth - delta else minDepth
  }

  /** The derived depth is the sampled minimum of both lists or one less, never below any
      sample; a QP drop keeps the minimum as it is. */
  lemma MinDepthBounds(ds0: seq<nat>, ds1: Option<seq<nat>>, absPartIdx: nat, numPartitions: nat,
                       currentQP: int, previousQP: int)
    requires 0 < numPartitions
    requires absPartIdx + numPartitions <= |ds0|
    requires ds1.Some? ==> absPartIdx + numPartitions <= |ds1.value|
    ensures var m := DeriveMinDepth(ds0, ds1, absPartIdx, numPartitions, currentQP, previousQP);
      var cnt := SampleCount(numPartitions);
      var lo := Min(SampleStats(ds0, absPartIdx, cnt).min, ListStats(ds1, absPartIdx, cnt).min);
      && (m == lo || m + 1 == lo)
      && (currentQP < previousQP ==> m == lo)
      && (forall t :: 0 <= t < cnt ==> m <= ds0[absPartIdx + 4 * t])
      && (ds1.Some? ==> forall t :: 0 <= t < cnt ==> m <= ds1.value[absPartIdx + 4 * t])
  {
    var cnt := SampleCount(numPartitions);
    SampleMinFacts(ds0, absPartIdx, cnt);
    if ds1.Some? {
      SampleMinFacts(ds1.value, absPartIdx, cnt);
    }
  }

  /** With both lists referenced and a whole number of samples, the doubled average is at
      least twice the minimum, so the 32-bit subtraction does not wrap. */
  lemma BothListsNoWrap(ds0: seq<nat>, ds1: seq<nat>, absPartIdx: nat, numPartitions: nat)
    requires 0 < numPartitions && numPartitions % 4 == 0
    requires absPartIdx + numPartitions <= |ds0| && absPartIdx + numPartitions <= |ds1|
    ensures var cnt := SampleCount(numPartitions);
      var s0, s1 := SampleStats(ds0, absPartIdx, cnt), SampleStats(ds1, absPartIdx, cnt);
      (s0.sum + s1.sum) / numPartitions >= 2 * Min(s0.min, s1.min)
  {
    var cnt := SampleCount(numPartitions);
    SampleSumAtLeast(ds0, absPartIdx, cnt);
    SampleSumAtLeast(ds1, absPartIdx, cnt);
    var s0, s1 := SampleStats(ds0, absPartIdx, cnt), SampleStats(ds1, absPartIdx, cnt);
    DoubledAverageAtLeast(s0.sum, s1.sum, cnt, s0.min, s1.min, numPartitions);
  }

  lemma DoubledAverageAtLeast(sum0: nat, sum1: nat, cnt: nat, m0: nat, m1: nat, n: nat)
    requires n == 4 * cnt && 0 < n
    requires sum0 >= cnt * (4 * m0) && sum1 >= cnt * (4 * m1)
    ensures (sum0 + sum1) / n >= 2 * Min(m0, m1)
  {
    var lo: nat := Min(m0, m1);
    MulMonotone(cnt, 4 * lo, 4 * m0);
    MulMonotone(cnt, 4 * lo, 4 * m1);
    assert (2 * lo) * n == cnt * (4 * lo) + cnt * (4 * lo);
    DivLowerBound(sum0 + sum1, n, 2 * lo);
  }

  lemma DivLowerBound(x: nat, d: nat, lo: nat)
    requires 0 < d && lo * d <= x
    ensures lo <= x / d
  {
    var q, r := x / d, x % d;
    assert x == q * d + r && r < d;
    if q < lo {
      MulMonotone(d, q + 1, lo);
      assert false;
    }
  }

  lemma DivUpperBound(x: nat, d: nat, hi: nat)
    requires 0 < d && x <= hi * d
    ensures x / d <= hi
  {
    var q, r := x / d, x % d;
    assert x == q * d + r && r < d;
    if q > hi {
      MulMonotone(d, hi + 1, q);
      assert false;
    }
  }

  /** The same uniform co-located depth 2 gives different results with one list and with two:
      with list 0 alone the doubled average (2) is below twice the minimum (4), the 32-bit
      difference wraps to a large value and the minimum is kept, while with both lists the
      difference is 0 and the minimum is lowered. */
  lemma SingleListWrapKeepsMinimum()
    ensures DeriveMinDepth([2, 2, 2, 2], None, 0, 4, 30, 30) == 2
    ensures DeriveMinDepth([2, 2, 2, 2], Some([2, 2, 2, 2]), 0, 4, 30, 30) == 1
  {
    assert SampleStats([2, 2, 2, 2], 0, 1) == DepthStats(2, 8);
  }

  /** The loop of compressInterCU_rd0_4 that samples the co-located depths and derives the
      minimum depth.  List 0 must have a reference: its co-located CU is read unconditionally. */
  method ComputeMinDepth(ds0: seq<nat>, ds1: Option<seq<nat>>, absPartIdx: nat, numPartitions: nat,
                         currentQP: int, previousQP: int) returns (minDepth: nat)
    requires 0 < numPartitions
    requires absPartIdx + numPartitions <= |ds0|
    requires ds1.Some? ==> absPartIdx + numPartitions <= |ds1.value|
    ensures minDepth == DeriveMinDepth(ds0, ds1, absPartIdx, numPartitions, currentQP, previousQP)
  {
    var delta, minDepth0, minDepth1 := 0, 4, 4;
    var sum0: nat, sum1: nat := 0, 0;
    var i := 0;
    ghost var k := 0;
    while i < numPartitions
      invariant i == 4 * k && k <= SampleCount(numPartitions)
      invariant DepthStats(minDepth0, sum0) == SampleStats(ds0, absPartIdx, k)
      invariant DepthStats(minDepth1, sum1) == ListStats(ds1, absPartIdx, k)
    {
      var j := absPartIdx + i;
      if ds0[j] < minDepth0 {
        minDepth0 := ds0[j];
      }
      if ds1.Some? && ds1.value[j] < minDepth1 {
        minDepth1 := ds1.value[j];
      }
      sum0 := sum0 + ds0[j] * 4;
      if ds1.Some? {
        sum1 := sum1 + ds1.value[j] * 4;
      }
      i, k := i + 4, k + 1;
    }
    var avgDepth2 := (sum0 + sum1) / numPartitions;
    minDepth := Min(minDepth0, minDepth1);
    if currentQP - previousQP < 0 || U32(avgDepth2 - 2 * minDepth) > 1 {
      delta := 0;
    } else {
      delta := 1;
    }
    if minDepth > 0 {
      minDepth := minDepth - delta;
    }
  }

  // ---------------------------------------------------------------------------------------
  // Blended neighbour average and the early exit
  // ---------------------------------------------------------------------------------------

  /** A CU's running average cost at a depth and the number of costs it averages. */
  datatype CostStats = CostStats(avgCost: nat, count: nat)

  /** The summed cost (average times count) of the present neighbours. */
  function TotalCost(ns: seq<CostStats>): nat
  {
    if ns == [] then 0 else TotalCost(ns[..|ns| - 1]) + ns[|ns| - 1].avgCost * ns[|ns| - 1].count
  }

  function TotalCount(ns: seq<CostStats>): nat
  {
    if ns == [] then 0 else TotalCount(ns[..|ns| - 1]) + ns[|ns| - 1].count
  }

  /** When every average lies in [lo, hi], the summed cost lies between lo and hi times the
      summed count. */
  lemma {:induction false} TotalsBetween(ns: seq<CostStats>, lo: nat, hi: nat)
    requires forall j :: 0 <= j < |ns| ==> lo <= ns[j].avgCost <= hi
    ensures lo * TotalCount(ns) <= TotalCost(ns) <= hi * TotalCount(ns)
  {
    if ns != [] {
      var init, last := ns[..|ns| - 1], ns[|ns| - 1];
      assert forall j :: 0 <= j < |init| ==> init[j] == ns[j];
      TotalsBetween(init, lo, hi);
      BetweenStep(TotalCost(init), TotalCount(init), last.avgCost, last.count, lo, hi);
    }
  }

  lemma BetweenStep(cost: nat, count: nat, avg: nat, n: nat, lo: nat, hi: nat)
    requires lo * count <= cost <= hi * count && lo <= avg <= hi
    ensures lo * (count + n) <= cost + avg * n <= hi * (count + n)
  {
    MulMonotone(n, lo, avg);
    MulMonotone(n, avg, hi);
  }

  /**
   * The 60/40 blend of the CTU's own average at this depth and its present neighbours'
   * (above, above-left, above-right, left): each of the CTU's costs weighs 3 and each
   * neighbour cost 2.  It is 0 when no costs have been recorded.
   */
  function BlendedAverage(ctu: CostStats, neigh: seq<CostStats>): (avg: nat)
    requires |neigh| <= 4
    ensures ctu.count + TotalCount(neigh) == 0 ==> avg == 0
  {
    var costCU: nat, countCU := ctu.avgCost * ctu.count, ctu.count;
    var costNeigh, countNeigh := TotalCost(neigh), TotalCount(neigh);
    if countNeigh + countCU != 0
    then (3 * costCU + 2 * costNeigh) / (3 * countCU + 2 * countNeigh)
    else 0
  }

  /** The blend of averages that all lie in [lo, hi] lies in [lo, hi] too. */
  lemma BlendedWithinRange(ctu: CostStats, neigh: seq<CostStats>, lo: nat, hi: nat)
    requires |neigh| <= 4
    requires lo <= ctu.avgCost <= hi
    requires forall j :: 0 <= j < |neigh| ==> lo <= neigh[j].avgCost <= hi
    requires ctu.count + TotalCount(neigh) > 0
    ensures lo <= BlendedAverage(ctu, neigh) <= hi
  {
    TotalsBetween(neigh, lo, hi);
    MulMonotone(ctu.count, lo, ctu.avgCost);
    MulMonotone(ctu.count, ctu.avgCost, hi);
    var num := 3 * (ctu.avgCost * ctu.count) + 2 * TotalCost(neigh);
    var den := 3 * ctu.count + 2 * TotalCount(neigh);
    Distribute(lo, ctu.count, TotalCount(neigh));
    Distribute(hi, ctu.count, TotalCount(neigh));
    DivLowerBound(num, den, lo);
    DivUpperBound(num, den, hi);
  }

  lemma Distribute(h: nat, a: nat, b: nat)
    ensures h * (3 * a + 2 * b) == 3 * (h * a) + 2 * (h * b)
  {
  }

  /** The early exit: a CU that has a best mode at a depth it analysed skips its split when that
      mode is strictly cheaper than a non-zero blended average, except at the CTU level. */
  function EarlyExit(haveBest: bool, depth: nat, minDepth: nat, bestCost: nat, avgCost: nat): (exit: bool)
    ensures exit ==> depth > 0 && avgCost > 0 && bestCost < avgCost
  {
    haveBest && !(depth < minDepth) && bestCost < avgCost && avgCost != 0 && depth != 0
  }

  /** Without recorded costs nothing exits early, and a mode at least as dear as every recorded
      average never exits. */
  lemma EarlyExitNeedsCheaperHistory(haveBest: bool, depth: nat, minDepth: nat, bestCost: nat,
                                     ctu: CostStats, neigh: seq<CostStats>)
    requires |neigh| <= 4
    requires ctu.avgCost <= bestCost && forall j :: 0 <= j < |neigh| ==> neigh[j].avgCost <= bestCost
    ensures !EarlyExit(haveBest, depth, minDepth, bestCost, BlendedAverage(ctu, neigh))
  {
    if ctu.count + TotalCount(neigh) > 0 {
      BlendedWithinRange(ctu, neigh, 0, bestCost);
    }
  }

  // ---------------------------------------------------------------------------------------
  // Per-CTU running average cost
  // ---------------------------------------------------------------------------------------

  /** The running average after one more cost: the floor of (avg * n + cost) / (n + 1). */
  function RunningAverage(avg: nat, n: nat, cost: nat): (r: nat)
    ensures n == 0 ==> r == cost
    ensures Min(avg, cost) <= r
    ensures r <= avg || r <= cost
    ensures avg <= cost ==> r <= cost
  {
    var lo, hi := Min(avg, cost), if avg <= cost then cost else avg;
    MulMonotone(n, lo, avg);
    MulMonotone(n, avg, hi);
    assert lo * (n + 1) <= avg * n + cost <= hi * (n + 1);
    DivLowerBound(avg * n + cost, n + 1, lo);
    DivUpperBound(avg * n + cost, n + 1, hi);
    (avg * n + cost) / (n + 1)
  }

  /** The average cost and count per depth of a CTU (m_avgCost and m_count). */
  class CtuStats {
    var avgCost: array<nat>
    var count: array<nat>

    ghost predicate Valid()
      reads this
    {
      avgCost.Length == count.Length && avgCost != count
    }

    constructor (numDepths: nat)
      ensures Valid() && fresh(avgCost) && fresh(count)
      ensures avgCost.Length == numDepths
      ensures forall d :: 0 <= d < numDepths ==> avgCost[d] == 0 && count[d] == 0
    {
      avgCost := new nat[numDepths](_ => 0);
      count := new nat[numDepths](_ => 0);
    }

    /** Records one more best cost at depth d. */
    method Update(d: nat, cost: nat)
      requires Valid() && d < count.Length
      modifies avgCost, count
      ensures Valid()
      ensures count[..] == old(count[..])[d := old(count[d]) + 1]
      ensures avgCost[..] == old(avgCost[..])[d := RunningAverage(old(avgCost[d]), old(count[d]), cost)]
    {
      var temp := avgCost[d] * count[d];
      count[d] := count[d] + 1;
      avgCost[d] := (temp + cost) / count[d];
    }
  }

  // ---------------------------------------------------------------------------------------
  // Per-depth sizes of create
  // ---------------------------------------------------------------------------------------

  /** Chroma sampling formats. */
  datatype Csp = Csp400 | Csp420 | Csp422 | Csp444

  /** Horizontal and vertical chroma subsampling shifts: 4:2:0 halves both, 4:2:2 halves only
      the width. */
  function ChromaHShift(c: Csp): nat { if c == Csp420 || c == Csp422 then 1 else 0 }
  function ChromaVShift(c: Csp): nat { if c == Csp420 then 1 else 0 }

  /** The number of 4x4 partitions, the CU width and the luma and chroma sample counts of a
      depth. */
  datatype DepthSizes = DepthSizes(numPartitions: nat, cuSize: nat, sizeL: nat, sizeC: nat)

  /** The sizes of depth i: the partition count shrinks by four per depth and the CU width by
      two; the luma area is computed in 32-bit arithmetic. */
  function DepthSizing(maxWidth: nat, maxFullDepth: nat, i: nat, csp: Csp): (z: DepthSizes)
    requires i <= maxFullDepth && (maxFullDepth - i) * 2 < 31 && i < 32
    requires IsU32(maxWidth)
    ensures IsU32(z.sizeL) && z.sizeC <= z.sizeL && z.cuSize <= maxWidth
  {
    var cuSize: nat := maxWidth / Pow2(i);
    var area: nat := cuSize * cuSize;
    var sizeL: nat := U32(area);
    var shift: nat := Pow2(ChromaHShift(csp) + ChromaVShift(csp));
    DivNoLarger(maxWidth, Pow2(i));
    DivNoLarger(sizeL, shift);
    DepthSizes(Pow2((maxFullDepth - i) * 2), cuSize, sizeL, sizeL / shift)
  }

  lemma DivNoLarger(x: nat, d: nat)
    requires 0 < d
    ensures x / d <= x
  {
    var q, r := x / d, x % d;
    assert x == q * d + r;
    MulMonotone(q, 1, d);
  }

  lemma DivExact(a: nat, d: nat)
    requires 0 < d
    ensures (a * d) / d == a
  {
    var x: nat := a * d;
    DivLowerBound(x, d, a);
    DivUpperBound(x, d, a);
  }

  lemma {:induction false} Pow2Add(a: nat, b: nat)
    ensures Pow2(a + b) == Pow2(a) * Pow2(b)
  {
    if a > 0 {
      Pow2Add(a - 1, b);
    }
  }

  lemma {:induction false} Pow2Monotone(a: nat, b: nat)
    requires a <= b
    ensures Pow2(a) <= Pow2(b)
  {
    if a < b {
      Pow2Monotone(a, b - 1);
    }
  }

  /** The CU width of depth i is 4 * 2^(maxFullDepth - i) and its luma area is 16 times its
      partition count. */
  lemma SizingOfDepth(maxWidth: nat, maxFullDepth: nat, i: nat)
    requires maxWidth == 4 * Pow2(maxFullDepth) && i <= maxFullDepth <= 4
    ensures IsU32(maxWidth)
    ensures var z := DepthSizing(maxWidth, maxFullDepth, i, Csp420);
      z.cuSize == 4 * Pow2(maxFullDepth - i) && z.cuSize * z.cuSize == 16 * z.numPartitions < TWO_32
  {
    var m := maxFullDepth - i;
    Pow2Monotone(maxFullDepth, 4);
    Pow2Add(m, i);
    var w: nat := 4 * Pow2(m);
    assert maxWidth == w * Pow2(i);
    DivExact(w, Pow2(i));
    Pow2Add(m, m);
    assert m * 2 == m + m;
    Pow2Monotone(m * 2, 8);
    assert w * w == 16 * (Pow2(m) * Pow2(m));
  }

  /**
   * When the CTU is 4 * 2^maxFullDepth wide (the smallest CU partition is 4x4) and at most
   * 64 wide: depth i's CU is 4 * 2^(maxFullDepth - i) wide, its luma area is exactly its
   * partition count times 16 with no wrap-around, each deeper level has a quarter of the
   * partitions, and the chroma area is a quarter, a half or all of the luma area for 4:2:0,
   * 4:2:2 and 4:4:4 (and 4:0:0, which the shifts treat like 4:4:4).
   */
  lemma SizingConsistent(maxWidth: nat, maxFullDepth: nat, i: nat, csp: Csp)
    requires maxWidth == 4 * Pow2(maxFullDepth) && i <= maxFullDepth <= 4
    ensures IsU32(maxWidth)
    ensures var z := DepthSizing(maxWidth, maxFullDepth, i, csp);
      && z.cuSize == 4 * Pow2(maxFullDepth - i)
      && z.sizeL == 16 * z.numPartitions
      && (i < maxFullDepth ==> z.numPartitions == 4 * DepthSizing(maxWidth, maxFullDepth, i + 1, csp).numPartitions)
      && (csp == Csp420 ==> 4 * z.sizeC == z.sizeL)
      && (csp == Csp422 ==> 2 * z.sizeC == z.sizeL)
      && (csp == Csp444 || csp == Csp400 ==> z.sizeC == z.sizeL)
  {
    SizingOfDepth(maxWidth, maxFullDepth, i);
    var z := DepthSizing(maxWidth, maxFullDepth, i, csp);
    var n: nat := z.numPartitions;
    assert z.sizeL == 16 * n;
    if i < maxFullDepth {
      var k := (maxFullDepth - (i + 1)) * 2;
      assert (maxFullDepth - i) * 2 == 2 + k;
      Pow2Add(2, k);
    }
    assert Pow2(2) == 4 && Pow2(1) == 2 && Pow2(0) == 1;
    DivExact(4 * n, 4);
    DivExact(8 * n, 2);
    DivExact(16 * n, 1);
  }
}
