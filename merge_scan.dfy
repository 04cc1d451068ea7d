/**
 * The merge-candidate scan of checkMerge2Nx2N_rd0_4: each candidate that passes the
 * frame-parallel vertical-motion filter is tried in the scratch merge CU and, when its SA8D
 * cost is strictly below the best merge CU's, the two CUs and their prediction buffers trade
 * places.
 *
 * Motion compensation and the SA8D kernel are foreign: `trial(i)` gives the bits, distortion
 * and SA8D cost of candidate i.
 */
module MergeScan {
  import opened Common

  datatype Mv = Mv(x: int, y: int)

  /** A merge candidate: the motion of each reference list and its inter direction. */
  datatype MergeCand = MergeCand(mv0: Mv, mv1: Mv, interDir: nat)

  /** What trying a candidate costs: bits of its index, SA8D distortion and RD-SAD cost. */
  datatype Trial = Trial(bits: nat, distortion: nat, sa8dCost: nat)

  /** The parts of a merge CU that the scan writes. */
  datatype MergeCU = MergeCU(
    mergeFlag: bool, mergeIndex: nat, interDir: nat, mv0: Mv, mv1: Mv,
    totalBits: nat, distortion: nat, sa8dCost: nat)

  /** With frame parallelism a candidate is tried only when the vertical motion of both lists
      stays below (searchRange + 1) * 4 quarter-samples. */
  predicate Eligible(c: MergeCand, frameParallel: bool, searchRange: int)
  {
    !frameParallel || (c.mv0.y < (searchRange + 1) * 4 && c.mv1.y < (searchRange + 1) * 4)
  }

  /** The scratch CU after trying candidate i. */
  function Tried(cu: MergeCU, i: nat, c: MergeCand, t: Trial): MergeCU
  {
    cu.(mergeIndex := i, interDir := c.interDir, mv0 := c.mv0, mv1 := c.mv1,
        totalBits := t.bits, distortion := t.distortion, sa8dCost := t.sa8dCost)
  }

  /** The scan's running result: the best candidate index (-1 for none) and its SA8D cost. */
  datatype Scan = Scan(cand: int, cost: nat)

  /**
   * The scan over the first k candidates, starting from the incumbent's cost.  The result is
   * -1 with the incumbent's cost when no eligible candidate is strictly cheaper; otherwise it
   * is the first eligible candidate of minimum cost, strictly below the incumbent.
   */
  function MergeScanOf(cands: seq<MergeCand>, frameParallel: bool, searchRange: int,
                       trial: nat -> Trial, incumbent: nat, k: nat): (s: Scan)
    requires k <= |cands|
    ensures -1 <= s.cand < k && s.cost <= incumbent
    ensures s.cand == -1 ==> s.cost == incumbent
    ensures s.cand >= 0 ==>
      Eligible(cands[s.cand], frameParallel, searchRange) &&
      s.cost == trial(s.cand).sa8dCost && s.cost < incumbent
  {
    if k == 0 then Scan(-1, incumbent)
    else
      var s := MergeScanOf(cands, frameParallel, searchRange, trial, incumbent, k - 1);
      if Eligible(cands[k - 1], frameParallel, searchRange) && trial(k - 1).sa8dCost < s.cost
      then Scan(k - 1, trial(k - 1).sa8dCost)
      else s
  }

  /** The scan's result is no dearer than any eligible candidate, and strictly cheaper than
      every eligible candidate before the winner: the winner is the first of minimum cost. */
  lemma {:induction false} MergeScanIsFirstMinimum(cands: seq<MergeCand>, frameParallel: bool, searchRange: int,
                                                   trial: nat -> Trial, incumbent: nat, k: nat)
    requires k <= |cands|
    ensures var s := MergeScanOf(cands, frameParallel, searchRange, trial, incumbent, k);
      forall j :: 0 <= j < k && Eligible(cands[j], frameParallel, searchRange) ==>
        s.cost <= trial(j).sa8dCost && (j < s.cand ==> s.cost < trial(j).sa8dCost)
  {
    if k > 0 {
      MergeScanIsFirstMinimum(cands, frameParallel, searchRange, trial, incumbent, k - 1);
    }
  }

  /** No candidate is chosen exactly when no eligible one is strictly below the incumbent; in
      particular, with frame parallelism, a candidate whose vertical motion reaches
      (searchRange + 1) * 4 in either list is never chosen. */
  lemma NoCandidateBelowIncumbent(cands: seq<MergeCand>, frameParallel: bool, searchRange: int,
                                  trial: nat -> Trial, incumbent: nat)
    ensures var s := MergeScanOf(cands, frameParallel, searchRange, trial, incumbent, |cands|);
      && (s.cand == -1 <==> forall j :: 0 <= j < |cands| && Eligible(cands[j], frameParallel, searchRange) ==>
                                         trial(j).sa8dCost >= incumbent)
      && (frameParallel && s.cand >= 0 ==>
            cands[s.cand].mv0.y < (searchRange + 1) * 4 && cands[s.cand].mv1.y < (searchRange + 1) * 4)
  {
    MergeScanIsFirstMinimum(cands, frameParallel, searchRange, trial, incumbent, |cands|);
  }

  /** The depth's merge workspace: the best merge CU, the scratch merge CU, and the two
      prediction buffers they were predicted into. */
  class MergeWorkspace {
    var bestMergeCU: MergeCU
    var mergeCU: MergeCU
    var predMerge: nat
    var tmpPred: nat

    constructor (best: MergeCU, scratch: MergeCU, predMerge: nat, tmpPred: nat)
      ensures bestMergeCU == best && mergeCU == scratch
      ensures this.predMerge == predMerge && this.tmpPred == tmpPred
    {
      bestMergeCU, mergeCU := best, scratch;
      this.predMerge, this.tmpPred := predMerge, tmpPred;
    }

    /** The two prediction buffers are only ever exchanged. */
    ghost predicate SameBuffers(p: nat, t: nat)
      reads this
    {
      (predMerge, tmpPred) == (p, t) || (predMerge, tmpPred) == (t, p)
    }

    /** The candidate loop: each eligible candidate is tried in the scratch CU (predicted into
        the scratch buffer) and the scratch and best CUs and buffers trade places when it is
        strictly cheaper than the best. */
    method ScanCandidates(cands: seq<MergeCand>, frameParallel: bool, searchRange: int, trial: nat -> Trial)
      returns (bestSadCand: int)
      requires bestMergeCU.mergeFlag == mergeCU.mergeFlag
      modifies this
      ensures var s := MergeScanOf(cands, frameParallel, searchRange, trial, old(bestMergeCU.sa8dCost), |cands|);
        && bestSadCand == s.cand && bestMergeCU.sa8dCost == s.cost
        && (bestSadCand < 0 ==> bestMergeCU == old(bestMergeCU) && predMerge == old(predMerge) && tmpPred == old(tmpPred))
        && (bestSadCand >= 0 ==> bestMergeCU == Tried(old(mergeCU), bestSadCand, cands[bestSadCand], trial(bestSadCand)))
      ensures SameBuffers(old(predMerge), old(tmpPred))
    {
      ghost var incumbent := bestMergeCU.sa8dCost;
      ghost var scratch := mergeCU;
      bestSadCand := -1;
      var i := 0;
      while i < |cands|
        invariant 0 <= i <= |cands|
        invariant var s := MergeScanOf(cands, frameParallel, searchRange, trial, incumbent, i);
          && bestSadCand == s.cand && bestMergeCU.sa8dCost == s.cost
          && (bestSadCand < 0 ==> bestMergeCU == old(bestMergeCU) && predMerge == old(predMerge) && tmpPred == old(tmpPred))
          && (bestSadCand >= 0 ==> bestMergeCU == Tried(scratch, bestSadCand, cands[bestSadCand], trial(bestSadCand)))
        invariant mergeCU.mergeFlag == scratch.mergeFlag
        invariant SameBuffers(old(predMerge), old(tmpPred))
      {
        bestSadCand := TryCandidate(i, cands[i], trial(i), Eligible(cands[i], frameParallel, searchRange), bestSadCand);
        i := i + 1;
      }
    }

    /** One pass of the candidate loop. */
    method TryCandidate(i: nat, c: MergeCand, t: Trial, eligible: bool, bestSadCand: int) returns (b: int)
      modifies this
      ensures if eligible && t.sa8dCost < old(bestMergeCU.sa8dCost) then
          && b == i && bestMergeCU == Tried(old(mergeCU), i, c, t) && mergeCU == old(bestMergeCU)
          && predMerge == old(tmpPred) && tmpPred == old(predMerge)
        else
          && b == bestSadCand && bestMergeCU == old(bestMergeCU)
          && predMerge == old(predMerge) && tmpPred == old(tmpPred)
          && mergeCU == (if eligible then Tried(old(mergeCU), i, c, t) else old(mergeCU))
    {
      b := bestSadCand;
      if eligible {
        mergeCU := Tried(mergeCU, i, c, t);
        if mergeCU.sa8dCost < bestMergeCU.sa8dCost {
          b := i;
          bestMergeCU, mergeCU := mergeCU, bestMergeCU;
          predMerge, tmpPred := tmpPred, predMerge;
        }
      }
    }

    /**
     * checkMerge2Nx2N_rd0_4 up to its RD stage.  Both CUs are marked as merge and the
     * candidates are scanned.  Without a winner the best CU's merge flag is cleared; with one,
     * the scratch CU is re-loaded with the winner's motion and its costs.
     */
    method CheckMerge2Nx2N(cands: seq<MergeCand>, frameParallel: bool, searchRange: int, trial: nat -> Trial)
      returns (bestSadCand: int)
      modifies this
      ensures var s := MergeScanOf(cands, frameParallel, searchRange, trial, old(bestMergeCU.sa8dCost), |cands|);
        && bestSadCand == s.cand
        && bestMergeCU.sa8dCost == s.cost
        && (bestSadCand < 0 ==>
              && bestMergeCU == old(bestMergeCU).(mergeFlag := false)
              && predMerge == old(predMerge) && tmpPred == old(tmpPred))
        && (bestSadCand >= 0 ==>
              && bestMergeCU == Tried(old(mergeCU).(mergeFlag := true), bestSadCand, cands[bestSadCand], trial(bestSadCand))
              && mergeCU.mergeIndex == bestSadCand && mergeCU.interDir == cands[bestSadCand].interDir
              && mergeCU.mv0 == cands[bestSadCand].mv0 && mergeCU.mv1 == cands[bestSadCand].mv1
              && mergeCU.totalBits == bestMergeCU.totalBits && mergeCU.distortion == bestMergeCU.distortion
              && mergeCU.sa8dCost == bestMergeCU.sa8dCost)
      ensures SameBuffers(old(predMerge), old(tmpPred))
    {
      mergeCU := mergeCU.(mergeFlag := true);
      bestMergeCU := bestMergeCU.(mergeFlag := true);
      bestSadCand := ScanCandidates(cands, frameParallel, searchRange, trial);
      if bestSadCand < 0 {
        bestMergeCU := bestMergeCU.(mergeFlag := false);
      } else {
        var c := cands[bestSadCand];
        mergeCU := mergeCU.(mergeIndex := bestSadCand, interDir := c.interDir, mv0 := c.mv0, mv1 := c.mv1,
                            totalBits := bestMergeCU.totalBits, distortion := bestMergeCU.distortion,
                            sa8dCost := bestMergeCU.sa8dCost);
      }
    }
  }
}
