/**
 * The motion-estimation bookkeeping of parallelME and parallelInterSearch: the split of a
 * motion-estimation job id into a reference list and a reference index, the choice of the AMVP
 * predictor that seeds the search, the per-list best-result update, and the bit count of the
 * bidirectional candidate.
 *
 * The motion search itself (motionEstimate, the MV bit costs, checkBestMVP), the predictor
 * derivation (fillMvpCand), the SAD kernel and the truncated-unary index bits (getTUBits) are
 * foreign: they enter as function-valued parameters.
 */
module MotionSearch {
  import opened Common

  /** AMVP_NUM_CANDS: an H.265 prediction unit has two motion-vector predictor candidates
      (section 8.5.3.2.6 of ITU-T H.265). */
  const AMVP_NUM_CANDS: nat := 2

  datatype Mv = Mv(x: int, y: int)

  /** A reference list (0 or 1) and a reference index in it. */
  datatype ListRef = ListRef(list: nat, ref: nat)

  /** The motion-estimation job meId searches list 0 for the first numRef0 ids and list 1 after. */
  function JobToListRef(meId: nat, numRef0: nat): (r: ListRef)
    ensures r.list < 2
    ensures r.list == 0 <==> meId < numRef0
    ensures r.list == 0 ==> r.ref == meId
    ensures r.list == 1 ==> r.ref + numRef0 == meId
  {
    if meId < numRef0 then ListRef(0, meId) else ListRef(1, meId - numRef0)
  }

  /** The job id that searches a given list and reference: the inverse numbering. */
  function ListRefToJob(lr: ListRef, numRef0: nat): nat
  {
    if lr.list == 0 then lr.ref else numRef0 + lr.ref
  }

  /** The number of references of list l. */
  function NumRef(l: nat, numRef0: nat, numRef1: nat): nat
  {
    if l == 0 then numRef0 else numRef1
  }

  /** Every job id below numRef0 + numRef1 names a reference that exists in its list, and
      numbering it back gives the same id. */
  lemma JobRoundTrip(meId: nat, numRef0: nat, numRef1: nat)
    requires meId < numRef0 + numRef1
    ensures var lr := JobToListRef(meId, numRef0);
      lr.ref < NumRef(lr.list, numRef0, numRef1) && ListRefToJob(lr, numRef0) == meId
  {
  }

  /** Every existing (list, reference) pair is searched by exactly one job, whose id is below
      numRef0 + numRef1. */
  lemma ListRefRoundTrip(lr: ListRef, numRef0: nat, numRef1: nat)
    requires lr.list < 2 && lr.ref < NumRef(lr.list, numRef0, numRef1)
    ensures ListRefToJob(lr, numRef0) < numRef0 + numRef1
    ensures JobToListRef(ListRefToJob(lr, numRef0), numRef0) == lr
  {
  }

  /** With frame parallelism a predictor whose vertical component reaches (merange + 1) * 4
      quarter-samples is not measured. */
  predicate MvpEligible(c: Mv, frameParallel: bool, merange: int)
  {
    !frameParallel || c.y < (merange + 1) * 4
  }

  /** The predictor loop's running result: the chosen index and its SAD cost. */
  datatype MvpPick = MvpPick(idx: nat, cost: nat)

  /**
   * The predictor choice over the first k candidates.  The running cost starts at MAX_INT with
   * index 0 and is replaced only by a strictly lower SAD: without any eligible candidate below
   * MAX_INT the index stays 0.
   */
  function MvpScanOf(cands: seq<Mv>, frameParallel: bool, merange: int, sad: nat -> nat, k: nat): (p: MvpPick)
    requires k <= |cands|
    ensures p.cost <= MAX_INT
    ensures p.cost == MAX_INT ==> p.idx == 0
    ensures p.cost < MAX_INT ==>
      p.idx < k && MvpEligible(cands[p.idx], frameParallel, merange) && p.cost == sad(p.idx)
  {
    if k == 0 then MvpPick(0, MAX_INT)
    else
      var p := MvpScanOf(cands, frameParallel, merange, sad, k - 1);
      if MvpEligible(cands[k - 1], frameParallel, merange) && p.cost > sad(k - 1)
      then MvpPick(k - 1, sad(k - 1))
      else p
  }

  /** The chosen predictor's cost is no higher than any eligible candidate's and strictly lower
      than every eligible candidate before it: it is the first of minimum SAD. */
  lemma {:induction false} MvpIsFirstMinimum(cands: seq<Mv>, frameParallel: bool, merange: int,
                                             sad: nat -> nat, k: nat)
    requires k <= |cands|
    ensures var p := MvpScanOf(cands, frameParallel, merange, sad, k);
      forall j :: 0 <= j < k && MvpEligible(cands[j], frameParallel, merange) ==>
        p.cost <= sad(j) && (j < p.idx ==> p.cost < sad(j))
  {
    if k > 0 {
      MvpIsFirstMinimum(cands, frameParallel, merange, sad, k - 1);
    }
  }

  /** When every candidate is filtered out the search is still seeded with candidate 0, the
      predictor the filter rejected. */
  lemma FilteredPredictorStillSeeds(sad: nat -> nat)
    ensures var cands := [Mv(0, 100), Mv(0, 100)];
      && !MvpEligible(cands[0], true, 16)
      && MvpScanOf(cands, true, 16, sad, |cands|).idx == 0
  {
  }

  /** The AMVP loop of parallelME: returns the chosen predictor index and its cost. */
  method ChooseMvp(cands: seq<Mv>, frameParallel: bool, merange: int, sad: nat -> nat)
    returns (mvpIdx: nat, bestCost: nat)
    requires |cands| == AMVP_NUM_CANDS
    ensures MvpPick(mvpIdx, bestCost) == MvpScanOf(cands, frameParallel, merange, sad, |cands|)
    ensures mvpIdx < |cands|
  {
    bestCost := MAX_INT;
    mvpIdx := 0;
    var i := 0;
    while i < AMVP_NUM_CANDS
      invariant 0 <= i <= AMVP_NUM_CANDS
      invariant MvpPick(mvpIdx, bestCost) == MvpScanOf(cands, frameParallel, merange, sad, i)
    {
      if MvpEligible(cands[i], frameParallel, merange) {
        var cost := sad(i);
        if bestCost > cost {
          bestCost := cost;
          mvpIdx := i;
        }
      }
      i := i + 1;
    }
  }

  /** The best search result of one list: motion vector, predictor, its index, reference,
      cost and bits. */
  datatype MotionData = MotionData(mv: Mv, mvp: Mv, mvpIdx: nat, ref: nat, cost: nat, bits: nat)

  /** A finished search replaces the list's best only when strictly cheaper. */
  function Better(best: MotionData, r: MotionData): (m: MotionData)
    ensures m == best || m == r
    ensures m.cost <= best.cost && m.cost <= r.cost
    ensures r.cost >= best.cost ==> m == best
  {
    if r.cost < best.cost then r else best
  }

  /** The list's best after the searches rs have reported, in that order. */
  function Offered(best: MotionData, rs: seq<MotionData>): MotionData
  {
    if rs == [] then best else Better(Offered(best, rs[..|rs| - 1]), rs[|rs| - 1])
  }

  /** The best after a series of reports is one of them (or the starting value) and costs no
      more than any of them. */
  lemma {:induction false} OfferedIsMinimum(best: MotionData, rs: seq<MotionData>)
    ensures var m := Offered(best, rs);
      && (m == best || m in rs)
      && m.cost <= best.cost
      && forall j :: 0 <= j < |rs| ==> m.cost <= rs[j].cost
  {
    if rs != [] {
      var init := rs[..|rs| - 1];
      OfferedIsMinimum(best, init);
      assert forall j :: 0 <= j < |init| ==> init[j] == rs[j];
    }
  }

  /** The order in which the reference searches finish does not change the best cost. */
  lemma OfferedCostIndependentOfOrder(best: MotionData, rs: seq<MotionData>, ss: seq<MotionData>)
    requires multiset(rs) == multiset(ss)
    ensures Offered(best, rs).cost == Offered(best, ss).cost
  {
    OfferedIsMinimum(best, rs);
    OfferedIsMinimum(best, ss);
    var m, n := Offered(best, rs), Offered(best, ss);
    if m != best {
      assert m in multiset(ss);
      var j :| 0 <= j < |ss| && ss[j] == m;
    }
    if n != best {
      assert n in multiset(rs);
      var j :| 0 <= j < |rs| && rs[j] == n;
    }
  }

  /** Between two equally cheap results the one reported first is kept, so on a tie the
      surviving motion vector depends on the finishing order. */
  lemma TieKeepsFirstReported()
    ensures var start := MotionData(Mv(0, 0), Mv(0, 0), 0, 0, MAX_UINT, 0);
      var a := MotionData(Mv(4, 0), Mv(0, 0), 0, 0, 10, 3);
      var b := MotionData(Mv(0, 4), Mv(0, 0), 1, 1, 10, 5);
      Offered(start, [a, b]) == a && Offered(start, [b, a]) == b
  {
    var start := MotionData(Mv(0, 0), Mv(0, 0), 0, 0, MAX_UINT, 0);
    var a := MotionData(Mv(4, 0), Mv(0, 0), 0, 0, 10, 3);
    var b := MotionData(Mv(0, 4), Mv(0, 0), 1, 1, 10, 5);
    assert [a, b][..1] == [a] && [a][..0] == [];
    assert [b, a][..1] == [b] && [b][..0] == [];
    assert Offered(start, [a]) == a;
    assert Offered(start, [b]) == b;
  }

  /** What the foreign motion search reports: the motion vector, the refined predictor and its
      index, and the final bits and cost. */
  datatype SearchOutcome = SearchOutcome(mv: Mv, mvp: Mv, mvpIdx: nat, bits: nat, cost: nat)

  /**
   * The bits of the bidirectional candidate: both lists' bits with their list-selection bits
   * swapped for the bidirectional one, computed in 32-bit unsigned arithmetic.
   */
  function BidirBits(bits0: nat, bits1: nat, listSelBits: seq<nat>): (r: nat)
    requires |listSelBits| == 3
    ensures IsU32(r)
  {
    U32(bits0 + bits1 + listSelBits[2] - (listSelBits[0] + listSelBits[1]))
  }

  /** When each list's bits include its own list-selection bits (as parallelME starts them) and
      the total fits in 32 bits, the bidirectional count is each list's remaining bits plus the
      bidirectional selection bits, with no wrap-around. */
  lemma BidirBitsSwapSelection(bits0: nat, bits1: nat, listSelBits: seq<nat>)
    requires |listSelBits| == 3
    requires bits0 >= listSelBits[0] && bits1 >= listSelBits[1]
    requires (bits0 - listSelBits[0]) + (bits1 - listSelBits[1]) + listSelBits[2] < TWO_32
    ensures BidirBits(bits0, bits1, listSelBits) ==
      (bits0 - listSelBits[0]) + (bits1 - listSelBits[1]) + listSelBits[2]
  {
  }

  /** The per-list best motion of the analysis: m_bestME[0] and m_bestME[1]. */
  class BestMotion {
    var bestME: seq<MotionData>

    ghost predicate Valid()
      reads this
    {
      |bestME| == 2
    }

    constructor (l0: MotionData, l1: MotionData)
      ensures Valid() && bestME == [l0, l1]
    {
      bestME := [l0, l1];
    }

    /** Before a prediction unit's searches both lists' costs are set to MAX_UINT. */
    method ResetCosts()
      requires Valid()
      modifies this
      ensures Valid()
      ensures bestME == [old(bestME)[0].(cost := MAX_UINT), old(bestME)[1].(cost := MAX_UINT)]
    {
      bestME := [bestME[0].(cost := MAX_UINT), bestME[1].(cost := MAX_UINT)];
    }

    /**
     * One motion-estimation job.  The job id selects the list and reference; the job's bits
     * start as that list's selection bits plus the predictor-index bits and the reference-index
     * bits; the AMVP loop picks the predictor that seeds the search; the search's result is
     * kept when strictly cheaper than the list's best.
     */
    method ParallelME(meId: nat, numRef0: nat, numRef1: nat, listSelBits: seq<nat>, mvpIdxBits: nat,
                      tuBits: (nat, nat) -> nat, fillMvpCand: ListRef -> seq<Mv>,
                      frameParallel: bool, merange: int, sad: (ListRef, nat) -> nat,
                      search: (ListRef, Mv, nat) -> SearchOutcome)
      requires Valid()
      requires meId < numRef0 + numRef1 && |listSelBits| == 3
      requires |fillMvpCand(JobToListRef(meId, numRef0))| == AMVP_NUM_CANDS
      modifies this
      ensures Valid()
      ensures var lr := JobToListRef(meId, numRef0);
        var cands := fillMvpCand(lr);
        var pick := MvpScanOf(cands, frameParallel, merange, i => sad(lr, i), |cands|);
        var bits := U32(listSelBits[lr.list] + mvpIdxBits + tuBits(lr.ref, NumRef(lr.list, numRef0, numRef1)));
        var o := search(lr, cands[pick.idx], bits);
        bestME == old(bestME)[lr.list := Better(old(bestME)[lr.list], MotionData(o.mv, o.mvp, o.mvpIdx, lr.ref, o.cost, o.bits))]
    {
      var lr := JobToListRef(meId, numRef0);
      var bits := U32(listSelBits[lr.list] + mvpIdxBits);
      bits := U32(bits + tuBits(lr.ref, NumRef(lr.list, numRef0, numRef1)));
      var cands := fillMvpCand(lr);
      var mvpIdx, _ := ChooseMvp(cands, frameParallel, merange, i => sad(lr, i));
      var o := search(lr, cands[mvpIdx], bits);
      if o.cost < bestME[lr.list].cost {
        bestME := bestME[lr.list := MotionData(o.mv, o.mvp, o.mvpIdx, lr.ref, o.cost, o.bits)];
      }
    }
  }
}
