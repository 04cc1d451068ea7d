/**
 * Per-depth candidate bookkeeping of the coding-tree walker: which CU descriptor plays
 * "best" and which "temp" at each depth, which prediction/reconstruction buffer each role
 * owns, and the three entropy-context snapshots (cur, next, temp) of each depth.
 *
 * CU descriptors and pixel buffers are identified by handles; entropy contexts by abstract
 * state ids.  Everything the pixel kernels and the entropy coder compute is supplied by an
 * oracle (IntraOracle) that maps a node, a shape and an entry context to a cost and an exit
 * context.
 */
module ModePool {
  import opened Common

  /** The RD cost and the psycho-visual RD cost of a candidate; comparisons use one of them. */
  datatype Costs = Costs(rd: nat, psy: nat)
  {
    function Plus(o: Costs): (r: Costs)
      ensures r.rd >= rd && r.psy >= psy
    {
      Costs(rd + o.rd, psy + o.psy)
    }
  }

  /** A freshly initialised CU carries the "unset" cost MAX_INT64 in both fields. */
  const Unset: Costs := Costs(MAX_INT64, MAX_INT64)
  const NoCost: Costs := Costs(0, 0)

  /** The cost the comparisons read: the psy-RD cost when psy-RD is enabled, else the RD cost. */
  function Sel(c: Costs, psyRd: bool): nat
  {
    if psyRd then c.psy else c.rd
  }

  /** A pixel-buffer set; it is allocated for one depth and never moves to another. */
  datatype Buf = Buf(depth: nat, id: nat)

  /** The per-depth workspace: CU roles, buffer roles and the entropy-context register. */
  datatype Level = Level(
    bestCU: nat, tempCU: nat, cost: map<nat, Costs>,
    bestPred: Buf, tmpPred: Buf, bestReco: Buf, tmpReco: Buf,
    cur: nat, next: nat, temp: nat)
  {
    /** The best and temp roles are held by two different CU descriptors, descriptors 6 and 7
        are allocated, and each buffer role owns its own buffer, all allocated for depth `d`. */
    ghost predicate Valid(d: nat)
    {
      && bestCU != tempCU && bestCU in cost && tempCU in cost && 6 in cost && 7 in cost
      && bestPred.depth == d && tmpPred.depth == d && bestReco.depth == d && tmpReco.depth == d
      && bestPred != tmpPred && bestPred != bestReco && bestPred != tmpReco
      && tmpPred != bestReco && tmpPred != tmpReco && bestReco != tmpReco
    }

    function BestCost(): Costs
      requires bestCU in cost
    {
      cost[bestCU]
    }

    function TempCost(): Costs
      requires tempCU in cost
    {
      cost[tempCU]
    }

    function Buffers(): seq<Buf>
    {
      [bestPred, tmpPred, bestReco, tmpReco]
    }
  }

  /** The roles a pixel buffer can play at a depth. */
  datatype BufRole = BestPred | TmpPred | BestReco | TmpReco

  function BufAt(lv: Level, r: BufRole): Buf
  {
    match r
    case BestPred => lv.bestPred
    case TmpPred => lv.tmpPred
    case BestReco => lv.bestReco
    case TmpReco => lv.tmpReco
  }

  /** A node of the CTU's partition quadtree (flags LEAF, SPLIT_MANDATORY and PRESENT). */
  datatype CUNode = CUNode(leaf: bool, splitMandatory: bool, present: bool, children: seq<CUNode>)

  /** A node that may split has four children and is above the deepest level; no node is both
      a leaf and forced to split (it could then be coded neither way). */
  ghost predicate WellFormed(n: CUNode, d: nat, maxDepth: nat)
    decreases n
  {
    && !(n.leaf && n.splitMandatory)
    && (!n.leaf ==>
          && d < maxDepth && |n.children| == 4
          && forall k :: 0 <= k < 4 ==> WellFormed(n.children[k], d + 1, maxDepth))
  }

  /** What one intra trial yields: its cost and the entropy context after coding it. */
  datatype Trial = Trial(cost: Costs, ctx: nat)

  /** The foreign computations the intra walker relies on: the intra search, residual coding and
      bit counting of one shape from an entry context, and the cost of coding the split flag. */
  datatype IntraOracle = IntraOracle(
    intra: (CUNode, PartSize, nat) -> Trial,
    splitFlag: (CUNode, bool) -> Costs)

  /** Every intra trial has a real cost, below the "unset" value. */
  ghost predicate FiniteTrials(o: IntraOracle, psyRd: bool)
  {
    forall n, p, c :: Sel(o.intra(n, p, c).cost, psyRd) < MAX_INT64
  }

  /** A candidate evaluated at a node: its cost and the context it leaves behind. */
  datatype Candidate = Candidate(cost: Costs, ctx: nat)

  /** One child visited by the split loop: its index, the child depth's `next` just before the
      child was entered, the `cur` it was entered with, the `next` it left, and its best cost. */
  datatype ChildVisit = ChildVisit(part: nat, nextBefore: nat, entry: nat, exit: nat, best: Costs)

  /** The child indices of a sequence of visits. */
  function PartsOf(vs: seq<ChildVisit>): seq<nat>
  {
    seq(|vs|, j requires 0 <= j < |vs| => vs[j].part)
  }

  /** The indices below `k` of the present children, in z-order. */
  function PresentParts(children: seq<CUNode>, k: nat): seq<nat>
    requires k <= |children|
  {
    if k == 0 then []
    else PresentParts(children, k - 1) + (if children[k - 1].present then [k - 1] else [])
  }

  function SumBest(vs: seq<ChildVisit>): Costs
  {
    if vs == [] then NoCost else SumBest(vs[..|vs| - 1]).Plus(vs[|vs| - 1].best)
  }

  /** The kept best (`best`, with context `next`) is no dearer than any evaluated candidate, and
      `win` is the first candidate of minimum cost, the one the best came from (-1: none kept). */
  ghost predicate FirstMinimum(ev: seq<Candidate>, win: int, best: Costs, next: nat, psyRd: bool)
  {
    && -1 <= win < |ev|
    && (forall j :: 0 <= j < |ev| ==> Sel(best, psyRd) <= Sel(ev[j].cost, psyRd))
    && (win >= 0 ==>
          && ev[win] == Candidate(best, next)
          && forall j :: 0 <= j < win ==> Sel(ev[j].cost, psyRd) > Sel(best, psyRd))
  }

  /** One more checkBestMode: a strictly cheaper candidate becomes the first minimum, any other
      leaves the first minimum where it was. */
  lemma FirstMinimumStep(ev: seq<Candidate>, win: int, best: Costs, next: nat, c: Candidate, psyRd: bool)
    requires FirstMinimum(ev, win, best, next, psyRd)
    ensures Sel(c.cost, psyRd) < Sel(best, psyRd) ==> FirstMinimum(ev + [c], |ev|, c.cost, c.ctx, psyRd)
    ensures Sel(best, psyRd) <= Sel(c.cost, psyRd) ==> FirstMinimum(ev + [c], win, best, next, psyRd)
  {
    assert forall j :: 0 <= j < |ev| ==> (ev + [c])[j] == ev[j];
  }

  /** The sibling protocol: child 0 enters with the parent's `cur`, a later child with the `next`
      found at the child depth, which is what its previous present sibling left there. */
  ghost predicate SiblingProtocol(visits: seq<ChildVisit>, parentCur: nat)
  {
    && (forall j :: 0 <= j < |visits| ==>
          visits[j].entry == (if visits[j].part == 0 then parentCur else visits[j].nextBefore))
    && (forall j :: 0 < j < |visits| ==> visits[j].nextBefore == visits[j - 1].exit)
  }

  /** Progress of the split loop after k children: the split cost and the `next` contexts are
      those of the reference walk of the first k children from the contexts `nx0` found on entry;
      the visited parts are the present ones among the first k, they follow the sibling protocol,
      the child depth's `next` is the last child's exit, and the split cost sums the children's
      best costs. */
  ghost predicate SplitProgress(n: CUNode, d: nat, k: nat, visits: seq<ChildVisit>, splitCost: Costs,
                                parentCur: nat, nx0: seq<nat>, nexts: seq<nat>,
                                maxDepth: nat, psyRd: bool, o: IntraOracle)
  {
    && d < maxDepth && |nx0| == maxDepth + 1 && |n.children| == 4 && k <= 4
    && (forall j :: 0 <= j < 4 ==> WellFormed(n.children[j], d + 1, maxDepth))
    && ChildrenWalk(n, k, d + 1, parentCur, nx0, maxDepth, psyRd, o) == Outcome(splitCost, nexts)
    && PartsOf(visits) == PresentParts(n.children, k)
    && SiblingProtocol(visits, parentCur)
    && (|visits| > 0 ==> nexts[d + 1] == visits[|visits| - 1].exit)
    && splitCost == SumBest(visits)
  }

  /** The split loop passes a present child: its visit joins the trace and its walk the
      progress. */
  lemma SplitProgressVisit(n: CUNode, d: nat, k: nat, visits: seq<ChildVisit>, splitCost: Costs,
                           parentCur: nat, nx0: seq<nat>, nexts: seq<nat>, nexts': seq<nat>,
                           visit: ChildVisit, maxDepth: nat, psyRd: bool, o: IntraOracle)
    requires SplitProgress(n, d, k, visits, splitCost, parentCur, nx0, nexts, maxDepth, psyRd, o)
    requires k < 4 && n.children[k].present
    requires visit.part == k && visit.nextBefore == nexts[d + 1]
    requires visit.entry == (if k == 0 then parentCur else nexts[d + 1])
    requires Outcome(visit.best, nexts') == Walk(n.children[k], d + 1, visit.entry, nexts, maxDepth, psyRd, o)
    requires visit.exit == nexts'[d + 1]
    ensures SplitProgress(n, d, k + 1, visits + [visit], splitCost.Plus(visit.best), parentCur, nx0, nexts',
                          maxDepth, psyRd, o)
  {
    var vs := visits + [visit];
    assert vs[..|visits|] == visits;
    assert PartsOf(vs) == PartsOf(visits) + [k];
  }

  /** The split loop passes a child outside the picture: nothing changes. */
  lemma SplitProgressSkip(n: CUNode, d: nat, k: nat, visits: seq<ChildVisit>, splitCost: Costs,
                          parentCur: nat, nx0: seq<nat>, nexts: seq<nat>,
                          maxDepth: nat, psyRd: bool, o: IntraOracle)
    requires SplitProgress(n, d, k, visits, splitCost, parentCur, nx0, nexts, maxDepth, psyRd, o)
    requires k < 4 && !n.children[k].present
    ensures SplitProgress(n, d, k + 1, visits, splitCost, parentCur, nx0, nexts, maxDepth, psyRd, o)
  {
  }

  /** The candidates compressIntraCU evaluates without splitting, in order: 2Nx2N (with the
      cost of a zero split flag above the deepest level), and NxN at the deepest level. */
  function UnsplitCandidates(n: CUNode, d: nat, maxDepth: nat, cur: nat, o: IntraOracle): seq<Candidate>
  {
    if n.splitMandatory then []
    else
      var t := o.intra(n, Size2Nx2N, cur);
      if d == maxDepth then
        var q := o.intra(n, SizeNxN, cur);
        [Candidate(t.cost, t.ctx), Candidate(q.cost, q.ctx)]
      else
        [Candidate(t.cost.Plus(o.splitFlag(n, false)), t.ctx)]
  }

  /** checkBestMode on values: the trial replaces the kept best only when strictly cheaper. */
  function Promote(best: Candidate, trial: Candidate, psyRd: bool): (r: Candidate)
    ensures r == best || r == trial
    ensures Sel(r.cost, psyRd) <= Sel(best.cost, psyRd) && Sel(r.cost, psyRd) <= Sel(trial.cost, psyRd)
    ensures Sel(best.cost, psyRd) <= Sel(trial.cost, psyRd) ==> r == best
  {
    if Sel(trial.cost, psyRd) < Sel(best.cost, psyRd) then trial else best
  }

  /** The best (cost and context) the unsplit half of compressIntraCU leaves at a node whose
      best CU starts unset and whose `next` starts at `next`: 2Nx2N is compared with the unset
      best, then NxN at the deepest level, or else the zero split flag is added to the best. */
  function UnsplitOutcome(n: CUNode, d: nat, maxDepth: nat, psyRd: bool, cur: nat, next: nat,
                          o: IntraOracle): Candidate
  {
    if n.splitMandatory then Candidate(Unset, next)
    else
      var t := o.intra(n, Size2Nx2N, cur);
      var b := Promote(Candidate(Unset, next), Candidate(t.cost, t.ctx), psyRd);
      if d == maxDepth then
        var q := o.intra(n, SizeNxN, cur);
        Promote(b, Candidate(q.cost, q.ctx), psyRd)
      else
        Candidate(b.cost.Plus(o.splitFlag(n, false)), b.ctx)
  }

  /** The cost of the split flag the split candidate carries: none when the split is forced. */
  function SplitFlagCost(n: CUNode, o: IntraOracle): Costs
  {
    if n.splitMandatory then NoCost else o.splitFlag(n, true)
  }

  /** What compressIntraCU leaves behind: the best cost of the node's depth and the `next`
      context of every depth. */
  datatype Outcome = Outcome(best: Costs, nexts: seq<nat>)

  /**
   * compressIntraCU as a recursive function over the quadtree: the reference the methods are
   * proved against.  `nx` holds the `next` context of every depth on entry; the node's best
   * starts unset.  The unsplit half runs first, then the present children in z-order (child 0
   * from `cur`, the others from the child depth's `next`), then the split candidate, priced as
   * the children's best costs plus the split flag and carrying the child depth's final `next`,
   * is compared with the unsplit best.  Only depths from `d` down change.
   */
  ghost function Walk(n: CUNode, d: nat, cur: nat, nx: seq<nat>, maxDepth: nat, psyRd: bool,
                      o: IntraOracle): (r: Outcome)
    requires d <= maxDepth && |nx| == maxDepth + 1 && WellFormed(n, d, maxDepth)
    decreases n, 1, 0
    ensures |r.nexts| == |nx| && forall i :: 0 <= i < d ==> r.nexts[i] == nx[i]
  {
    var u := UnsplitOutcome(n, d, maxDepth, psyRd, cur, nx[d], o);
    if n.leaf then Outcome(u.cost, nx[d := u.ctx])
    else
      var c := ChildrenWalk(n, 4, d + 1, cur, nx[d := u.ctx], maxDepth, psyRd, o);
      var s := Promote(u, Candidate(c.best.Plus(SplitFlagCost(n, o)), c.nexts[d + 1]), psyRd);
      Outcome(s.cost, c.nexts[d := s.ctx])
  }

  /** The first `k` children of `n` at depth `d`: the sum of the present children's best costs
      and the `next` contexts they leave. */
  ghost function ChildrenWalk(n: CUNode, k: nat, d: nat, parentCur: nat, nx: seq<nat>,
                              maxDepth: nat, psyRd: bool, o: IntraOracle): (r: Outcome)
    requires 0 < d <= maxDepth && |nx| == maxDepth + 1 && k <= |n.children|
    requires forall j :: 0 <= j < |n.children| ==> WellFormed(n.children[j], d, maxDepth)
    decreases n, 0, k
    ensures |r.nexts| == |nx| && forall i :: 0 <= i < d ==> r.nexts[i] == nx[i]
  {
    if k == 0 then Outcome(NoCost, nx)
    else
      var p := ChildrenWalk(n, k - 1, d, parentCur, nx, maxDepth, psyRd, o);
      if n.children[k - 1].present then
        var w := Walk(n.children[k - 1], d, if k == 1 then parentCur else p.nexts[d], p.nexts,
                      maxDepth, psyRd, o);
        Outcome(p.best.Plus(w.best), w.nexts)
      else p
  }

  /** The `next` context of each level. */
  function NextsOf(ls: seq<Level>): seq<nat>
  {
    seq(|ls|, i requires 0 <= i < |ls| => ls[i].next)
  }

  /** The index of the unsplit candidate that UnsplitOutcome keeps (-1: none). */
  function UnsplitWinner(n: CUNode, d: nat, maxDepth: nat, psyRd: bool, cur: nat, o: IntraOracle): int
  {
    if n.splitMandatory then -1
    else if d == maxDepth
         && Sel(o.intra(n, SizeNxN, cur).cost, psyRd) < Sel(o.intra(n, Size2Nx2N, cur).cost, psyRd)
    then 1
    else 0
  }

  /** With real trial costs the unsplit half keeps the first unsplit candidate of minimum cost,
      and keeps none only when the split is forced. */
  lemma UnsplitIsFirstMinimum(n: CUNode, d: nat, maxDepth: nat, psyRd: bool, cur: nat, next: nat,
                              o: IntraOracle)
    requires FiniteTrials(o, psyRd)
    ensures var u := UnsplitOutcome(n, d, maxDepth, psyRd, cur, next, o);
      var w := UnsplitWinner(n, d, maxDepth, psyRd, cur, o);
      && FirstMinimum(UnsplitCandidates(n, d, maxDepth, cur, o), w, u.cost, u.ctx, psyRd)
      && (w == -1 <==> n.splitMandatory)
      && (w == -1 ==> u == Candidate(Unset, next))
  {
    if !n.splitMandatory {
      var t := o.intra(n, Size2Nx2N, cur);
      assert Sel(t.cost, psyRd) < MAX_INT64;
      if d == maxDepth {
        var q := o.intra(n, SizeNxN, cur);
        assert Sel(q.cost, psyRd) < MAX_INT64;
        FirstMinimumStep([Candidate(t.cost, t.ctx)], 0, t.cost, t.ctx, Candidate(q.cost, q.ctx), psyRd);
      }
    }
  }

  /** The candidates the reference walk compares at a node, in order: the unsplit ones, then
      (unless the node is a leaf) the split candidate, priced as the children's best costs plus
      the split flag and carrying the child depth's final `next`. */
  ghost function WalkCandidates(n: CUNode, d: nat, cur: nat, nx: seq<nat>, maxDepth: nat, psyRd: bool,
                                o: IntraOracle): seq<Candidate>
    requires d <= maxDepth && |nx| == maxDepth + 1 && WellFormed(n, d, maxDepth)
  {
    var u := UnsplitOutcome(n, d, maxDepth, psyRd, cur, nx[d], o);
    UnsplitCandidates(n, d, maxDepth, cur, o) +
      (if n.leaf then []
       else var c := ChildrenWalk(n, 4, d + 1, cur, nx[d := u.ctx], maxDepth, psyRd, o);
            [Candidate(c.best.Plus(SplitFlagCost(n, o)), c.nexts[d + 1])])
  }

  /** The outcome `r` at depth `d` keeps candidate `w` of `ev` as the first of minimum cost;
      it keeps one unless the split is `forced`, and keeping none leaves the best unset and the
      depth's `next` at `next0`. */
  ghost predicate KeepsFirstMinimum(ev: seq<Candidate>, w: int, r: Outcome, d: nat, next0: nat,
                                    forced: bool, psyRd: bool)
  {
    && d < |r.nexts|
    && FirstMinimum(ev, w, r.best, r.nexts[d], psyRd)
    && (!forced ==> w >= 0)
    && (w == -1 ==> r.best == Unset && r.nexts[d] == next0)
  }

  /**
   * The reference walk keeps, at every node, the first of its candidates of minimum cost; it
   * keeps none only when the split is forced and no candidate is below the unset cost, and
   * then leaves the node's `next` alone.
   */
  lemma WalkIsFirstMinimum(n: CUNode, d: nat, cur: nat, nx: seq<nat>, maxDepth: nat, psyRd: bool,
                           o: IntraOracle)
    requires d <= maxDepth && |nx| == maxDepth + 1 && WellFormed(n, d, maxDepth)
    requires FiniteTrials(o, psyRd)
    ensures exists w :: KeepsFirstMinimum(WalkCandidates(n, d, cur, nx, maxDepth, psyRd, o), w,
                                          Walk(n, d, cur, nx, maxDepth, psyRd, o), d, nx[d],
                                          n.splitMandatory, psyRd)
  {
    var r := Walk(n, d, cur, nx, maxDepth, psyRd, o);
    var u := UnsplitOutcome(n, d, maxDepth, psyRd, cur, nx[d], o);
    var ev0 := UnsplitCandidates(n, d, maxDepth, cur, o);
    var ev := WalkCandidates(n, d, cur, nx, maxDepth, psyRd, o);
    var w := UnsplitWinner(n, d, maxDepth, psyRd, cur, o);
    UnsplitIsFirstMinimum(n, d, maxDepth, psyRd, cur, nx[d], o);
    if n.leaf {
      assert ev == ev0;
    } else {
      var c := ChildrenWalk(n, 4, d + 1, cur, nx[d := u.ctx], maxDepth, psyRd, o);
      var sc := Candidate(c.best.Plus(SplitFlagCost(n, o)), c.nexts[d + 1]);
      assert ev == ev0 + [sc];
      FirstMinimumStep(ev0, w, u.cost, u.ctx, sc, psyRd);
      var s := Promote(u, sc, psyRd);
      assert r == Outcome(s.cost, c.nexts[d := s.ctx]);
      w := if Sel(sc.cost, psyRd) < Sel(u.cost, psyRd) then |ev0| else w;
    }
    assert KeepsFirstMinimum(ev, w, r, d, nx[d], n.splitMandatory, psyRd);
  }

  /** A depth's workspace as allocated: CU descriptors 6 (best) and 7 (temp) and four buffers. */
  function InitialLevel(d: nat): (lv: Level)
    ensures lv.Valid(d)
  {
    Level(6, 7, map[6 := Unset, 7 := Unset], Buf(d, 0), Buf(d, 1), Buf(d, 2), Buf(d, 3), 0, 0, 0)
  }

  class Analysis {
    /** The deepest quadtree level; workspaces exist for depths 0..maxDepth. */
    const maxDepth: nat
    /** Whether comparisons use the psy-RD cost. */
    const psyRd: bool
    var levels: seq<Level>

    ghost predicate Valid()
      reads this
    {
      |levels| == maxDepth + 1 && forall d :: 0 <= d < |levels| ==> levels[d].Valid(d)
    }

    /** The pool as create() leaves it: per depth, CU descriptors 6 (best) and 7 (temp), and
        four distinct pixel-buffer sets. */
    constructor (maxDepth: nat, psyRd: bool)
      ensures Valid() && this.maxDepth == maxDepth && this.psyRd == psyRd
      ensures forall d :: 0 <= d <= maxDepth ==> levels[d].bestCU == 6 && levels[d].tempCU == 7
    {
      this.maxDepth := maxDepth;
      this.psyRd := psyRd;
      levels := seq(maxDepth + 1, d requires 0 <= d => InitialLevel(d));
    }

    function BestCost(d: nat): Costs
      requires Valid() && d <= maxDepth
      reads this
    {
      levels[d].BestCost()
    }

    /** The `next` context of every depth. */
    ghost function Nexts(): seq<nat>
      reads this
    {
      NextsOf(levels)
    }

    /** checkBestMode: the trial becomes best only when strictly cheaper.  Promotion exchanges
        the CU roles and the prediction and reconstruction buffers of the depth and copies the
        trial's context `temp` into `next`; otherwise nothing changes. */
    method CheckBestMode(d: nat)
      requires Valid() && d <= maxDepth
      modifies this
      ensures Valid()
      ensures forall e :: 0 <= e < |levels| && e != d ==> levels[e] == old(levels[e])
      ensures var o := old(levels[d]);
        if Sel(o.TempCost(), psyRd) < Sel(o.BestCost(), psyRd) then
          && levels[d].bestCU == o.tempCU && levels[d].tempCU == o.bestCU
          && levels[d].bestPred == o.tmpPred && levels[d].tmpPred == o.bestPred
          && levels[d].bestReco == o.tmpReco && levels[d].tmpReco == o.bestReco
          && levels[d].next == o.temp
          && levels[d].cost == o.cost && levels[d].cur == o.cur && levels[d].temp == o.temp
        else levels[d] == o
      ensures Nexts() == old(Nexts())[d := levels[d].next]
    {
      var lv := levels[d];
      var tempCost := Sel(lv.cost[lv.tempCU], psyRd);
      var bestCost := Sel(lv.cost[lv.bestCU], psyRd);
      if tempCost < bestCost {
        levels := levels[d := lv.(bestCU := lv.tempCU, tempCU := lv.bestCU,
                                  bestPred := lv.tmpPred, tmpPred := lv.bestPred,
                                  bestReco := lv.tmpReco, tmpReco := lv.bestReco,
                                  next := lv.temp)];
      }
    }

    /** initSubCU on the CU currently in the best role (or, with `temp`, the temp role):
        its costs return to the unset value. */
    method InitSubCU(d: nat, temp: bool)
      requires Valid() && d <= maxDepth
      modifies this
      ensures Valid()
      ensures forall e :: 0 <= e < |levels| && e != d ==> levels[e] == old(levels[e])
      ensures var o := old(levels[d]);
        levels[d] == o.(cost := o.cost[(if temp then o.tempCU else o.bestCU) := Unset])
      ensures Nexts() == old(Nexts())
    {
      var lv := levels[d];
      levels := levels[d := lv.(cost := lv.cost[(if temp then lv.tempCU else lv.bestCU) := Unset])];
    }

    /** checkIntra: the trial of one shape is coded from the depth's `cur` context into the temp
        CU; its context after coding is stored in `temp`. */
    method CheckIntra(n: CUNode, d: nat, shape: PartSize, o: IntraOracle)
      requires Valid() && d <= maxDepth
      modifies this
      ensures Valid()
      ensures forall e :: 0 <= e < |levels| && e != d ==> levels[e] == old(levels[e])
      ensures var lv := old(levels[d]); var t := o.intra(n, shape, lv.cur);
        levels[d] == lv.(cost := lv.cost[lv.tempCU := t.cost], temp := t.ctx)
      ensures Nexts() == old(Nexts())
    {
      var lv := levels[d];
      var t := o.intra(n, shape, lv.cur);
      levels := levels[d := lv.(cost := lv.cost[lv.tempCU := t.cost], temp := t.ctx)];
    }

    /** Adds the cost of the split flag to the CU in the given role. */
    method AddCost(d: nat, temp: bool, c: Costs)
      requires Valid() && d <= maxDepth
      modifies this
      ensures Valid()
      ensures forall e :: 0 <= e < |levels| && e != d ==> levels[e] == old(levels[e])
      ensures var lv := old(levels[d]); var cu := if temp then lv.tempCU else lv.bestCU;
        levels[d] == lv.(cost := lv.cost[cu := lv.cost[cu].Plus(c)])
      ensures Nexts() == old(Nexts())
    {
      var lv := levels[d];
      var cu := if temp then lv.tempCU else lv.bestCU;
      levels := levels[d := lv.(cost := lv.cost[cu := lv.cost[cu].Plus(c)])];
    }

    /** The split candidate's cost is placed in the temp CU. */
    method SetTempCost(d: nat, c: Costs)
      requires Valid() && d <= maxDepth
      modifies this
      ensures Valid()
      ensures forall e :: 0 <= e < |levels| && e != d ==> levels[e] == old(levels[e])
      ensures levels[d] == old(levels[d]).(cost := old(levels[d]).cost[old(levels[d]).tempCU := c])
      ensures Nexts() == old(Nexts())
    {
      var lv := levels[d];
      levels := levels[d := lv.(cost := lv.cost[lv.tempCU := c])];
    }

    /** The entry context of child `k`: child 0 starts from the parent's `cur`, a later child from
        the `next` its previous sibling left at the child depth. */
    method LoadChildContext(d: nat, k: nat)
      requires Valid() && d < maxDepth
      modifies this
      ensures Valid()
      ensures forall e :: 0 <= e < |levels| && e != d + 1 ==> levels[e] == old(levels[e])
      ensures levels[d + 1] == old(levels[d + 1]).(cur := if k == 0 then old(levels[d].cur)
                                                       else old(levels[d + 1].next))
      ensures Nexts() == old(Nexts())
    {
      var c := if k == 0 then levels[d].cur else levels[d + 1].next;
      levels := levels[d + 1 := levels[d + 1].(cur := c)];
    }

    /** After the children, the child depth's `next` becomes the parent's `temp`. */
    method StoreSplitContext(d: nat)
      requires Valid() && d < maxDepth
      modifies this
      ensures Valid()
      ensures forall e :: 0 <= e < |levels| && e != d ==> levels[e] == old(levels[e])
      ensures levels[d] == old(levels[d]).(temp := old(levels[d + 1].next))
      ensures Nexts() == old(Nexts())
    {
      levels := levels[d := levels[d].(temp := levels[d + 1].next)];
    }

    /** The unsplit half of compressIntraCU: unless the node must split, the 2Nx2N trial and, at
        the deepest level, the NxN trial each go through checkBestMode; above the deepest level
        the cost of a zero split flag is added to the winner. */
    method EvaluateUnsplit(n: CUNode, d: nat, o: IntraOracle)
      returns (ghost evaluated: seq<Candidate>, ghost win: int)
      requires Valid() && d <= maxDepth && FiniteTrials(o, psyRd)
      requires levels[d].BestCost() == Unset
      modifies this
      ensures Valid()
      ensures forall e :: 0 <= e < |levels| && e != d ==> levels[e] == old(levels[e])
      ensures levels[d].cur == old(levels[d].cur)
      ensures n.splitMandatory ==> levels[d] == old(levels[d])
      ensures evaluated == UnsplitCandidates(n, d, maxDepth, levels[d].cur, o)
      ensures FirstMinimum(evaluated, win, BestCost(d), levels[d].next, psyRd)
      ensures win == -1 <==> n.splitMandatory
      ensures Candidate(BestCost(d), levels[d].next) ==
              UnsplitOutcome(n, d, maxDepth, psyRd, levels[d].cur, old(levels[d].next), o)
      ensures Nexts() == old(Nexts())[d := levels[d].next]
    {
      evaluated, win := [], -1;
      if !n.splitMandatory {
        ghost var cur := levels[d].cur;
        ghost var t := o.intra(n, Size2Nx2N, cur);
        CheckIntra(n, d, Size2Nx2N, o);
        CheckBestMode(d);
        if d == maxDepth {
          evaluated, win := [Candidate(t.cost, t.ctx)], 0;
          ghost var q := o.intra(n, SizeNxN, cur);
          CheckIntra(n, d, SizeNxN, o);
          ghost var wins := Sel(q.cost, psyRd) < Sel(BestCost(d), psyRd);
          FirstMinimumStep(evaluated, win, BestCost(d), levels[d].next, Candidate(q.cost, q.ctx), psyRd);
          CheckBestMode(d);
          evaluated := evaluated + [Candidate(q.cost, q.ctx)];
          if wins {
            win := 1;
          }
        } else {
          AddCost(d, false, o.splitFlag(n, false));
          evaluated, win := [Candidate(t.cost.Plus(o.splitFlag(n, false)), t.ctx)], 0;
        }
      }
    }

    /** One present child of the split loop: its temp CU is initialised, its entry context is
        loaded by the sibling protocol, and it is compressed one depth down. */
    method VisitChild(child: CUNode, d: nat, k: nat, o: IntraOracle)
      returns (best: Costs, ghost visit: ChildVisit)
      requires Valid() && d < maxDepth && WellFormed(child, d + 1, maxDepth)
      requires FiniteTrials(o, psyRd) && levels[d + 1].BestCost() == Unset
      modifies this
      decreases child, 4
      ensures Valid()
      ensures forall e :: 0 <= e <= d ==> levels[e] == old(levels[e])
      ensures best == BestCost(d + 1)
      ensures visit == ChildVisit(k, old(levels[d + 1].next),
                                  if k == 0 then levels[d].cur else old(levels[d + 1].next),
                                  levels[d + 1].next, best)
      ensures Outcome(best, Nexts()) == Walk(child, d + 1, visit.entry, old(Nexts()), maxDepth, psyRd, o)
    {
      InitSubCU(d + 1, true);
      ghost var before := levels[d + 1].next;
      LoadChildContext(d, k);
      ghost var entry := levels[d + 1].cur;
      ghost var e: seq<Candidate>, w: int, v: seq<ChildVisit>;
      e, w, v := CompressIntra(child, d + 1, o);
      best := levels[d + 1].BestCost();
      visit := ChildVisit(k, before, entry, levels[d + 1].next, best);
    }

    /** The split loop of compressIntraCU: the child depth's CU roles restart from descriptors
        6 (best) and 7 (temp), then the four children in z-order; a present child is
        initialised, entered with the context of the sibling protocol and compressed, and its best
        cost is added to the split candidate's cost. */
    method SplitChildren(n: CUNode, d: nat, o: IntraOracle)
      returns (splitCost: Costs, ghost visits: seq<ChildVisit>)
      requires Valid() && d <= maxDepth && !n.leaf && WellFormed(n, d, maxDepth)
      requires FiniteTrials(o, psyRd)
      modifies this
      decreases n, 1
      ensures Valid()
      ensures forall e :: 0 <= e <= d ==> levels[e] == old(levels[e])
      ensures levels[d] == old(levels[d])
      ensures Outcome(splitCost, Nexts()) ==
              ChildrenWalk(n, 4, d + 1, levels[d].cur, old(Nexts()), maxDepth, psyRd, o)
      ensures splitCost == SumBest(visits)
      ensures PartsOf(visits) == PresentParts(n.children, 4)
      ensures SiblingProtocol(visits, levels[d].cur)
      ensures |visits| > 0 ==> levels[d + 1].next == visits[|visits| - 1].exit
    {
      // the loop's CU handles start from the depth's allocated descriptors
      levels := levels[d + 1 := levels[d + 1].(bestCU := 6, tempCU := 7)];
      ghost var nx0 := Nexts();
      assert nx0 == old(Nexts());
      visits := [];
      splitCost := NoCost;
      var k := 0;
      while k < 4
        invariant 0 <= k <= 4 && Valid()
        invariant forall e :: 0 <= e <= d ==> levels[e] == old(levels[e])
        invariant SplitProgress(n, d, k, visits, splitCost, levels[d].cur, nx0, Nexts(), maxDepth, psyRd, o)
      {
        splitCost, visits := SplitStep(n, d, k, o, splitCost, visits, nx0);
        k := k + 1;
      }
    }

    /** One pass of the split loop: child k is initialised and, when it lies inside the
        picture, compressed, keeping the loop's progress. */
    method SplitStep(n: CUNode, d: nat, k: nat, o: IntraOracle, splitCost: Costs,
                     ghost visits: seq<ChildVisit>, ghost nx0: seq<nat>)
      returns (splitCost': Costs, ghost visits': seq<ChildVisit>)
      requires Valid() && d <= maxDepth && !n.leaf && WellFormed(n, d, maxDepth) && k < 4
      requires FiniteTrials(o, psyRd)
      requires SplitProgress(n, d, k, visits, splitCost, levels[d].cur, nx0, Nexts(), maxDepth, psyRd, o)
      modifies this
      decreases n, 0
      ensures Valid()
      ensures forall e :: 0 <= e <= d ==> levels[e] == old(levels[e])
      ensures SplitProgress(n, d, k + 1, visits', splitCost', levels[d].cur, nx0, Nexts(), maxDepth, psyRd, o)
    {
      InitSubCU(d + 1, false);
      splitCost', visits' := splitCost, visits;
      if n.children[k].present {
        ghost var nexts := Nexts();
        var childBest: Costs;
        ghost var visit: ChildVisit;
        childBest, visit := VisitChild(n.children[k], d, k, o);
        SplitProgressVisit(n, d, k, visits, splitCost, levels[d].cur, nx0, nexts, Nexts(), visit,
                           maxDepth, psyRd, o);
        visits' := visits + [visit];
        splitCost' := splitCost.Plus(childBest);
      } else {
        SplitProgressSkip(n, d, k, visits, splitCost, levels[d].cur, nx0, Nexts(), maxDepth, psyRd, o);
      }
    }

    /**
     * The split half of compressIntraCU: the children are compressed, the split flag's cost is
     * added unless the split is forced, the split context is stored, and the split candidate
     * goes through checkBestMode after the candidates `ev0` already evaluated.
     */
    method EvaluateSplit(n: CUNode, d: nat, o: IntraOracle, ghost ev0: seq<Candidate>, ghost win0: int)
      returns (ghost evaluated: seq<Candidate>, ghost win: int, ghost visits: seq<ChildVisit>)
      requires Valid() && d <= maxDepth && !n.leaf && WellFormed(n, d, maxDepth)
      requires FiniteTrials(o, psyRd)
      requires FirstMinimum(ev0, win0, BestCost(d), levels[d].next, psyRd)
      modifies this
      decreases n, 2
      ensures Valid()
      ensures forall e :: 0 <= e < d ==> levels[e] == old(levels[e])
      ensures levels[d].cur == old(levels[d].cur)
      ensures evaluated == ev0 + [Candidate(SumBest(visits).Plus(SplitFlagCost(n, o)), levels[d].temp)]
      ensures FirstMinimum(evaluated, win, BestCost(d), levels[d].next, psyRd)
      ensures win0 >= 0 ==> win >= 0
      ensures win == -1 ==> win0 == -1 && BestCost(d) == old(BestCost(d)) && levels[d].next == old(levels[d].next)
      ensures PartsOf(visits) == PresentParts(n.children, 4)
      ensures SiblingProtocol(visits, levels[d].cur)
      ensures levels[d].temp == levels[d + 1].next
      ensures |visits| > 0 ==> levels[d + 1].next == visits[|visits| - 1].exit
      ensures var c := ChildrenWalk(n, 4, d + 1, levels[d].cur, old(Nexts()), maxDepth, psyRd, o);
        var s := Promote(Candidate(old(BestCost(d)), old(levels[d].next)),
                         Candidate(c.best.Plus(SplitFlagCost(n, o)), c.nexts[d + 1]), psyRd);
        Outcome(BestCost(d), Nexts()) == Outcome(s.cost, c.nexts[d := s.ctx])
    {
      ghost var u := Candidate(BestCost(d), levels[d].next);
      ghost var c := ChildrenWalk(n, 4, d + 1, levels[d].cur, Nexts(), maxDepth, psyRd, o);
      var splitCost: Costs;
      splitCost, visits := SplitChildren(n, d, o);
      assert Outcome(splitCost, Nexts()) == c && Candidate(BestCost(d), levels[d].next) == u;
      if !n.splitMandatory {
        splitCost := splitCost.Plus(o.splitFlag(n, true));
      }
      assert splitCost == c.best.Plus(SplitFlagCost(n, o)) && levels[d + 1].next == c.nexts[d + 1];
      evaluated, win := PromoteSplit(d, splitCost, ev0, win0);
    }

    /** The end of the split branch: the split candidate's cost goes into the temp CU, the
        child depth's `next` becomes the parent's `temp`, and checkBestMode compares the split
        candidate with the best found so far. */
    method PromoteSplit(d: nat, splitCost: Costs, ghost ev0: seq<Candidate>, ghost win0: int)
      returns (ghost evaluated: seq<Candidate>, ghost win: int)
      requires Valid() && d < maxDepth
      requires FirstMinimum(ev0, win0, BestCost(d), levels[d].next, psyRd)
      modifies this
      ensures Valid()
      ensures forall e :: 0 <= e < |levels| && e != d ==> levels[e] == old(levels[e])
      ensures levels[d].cur == old(levels[d].cur) && levels[d].temp == levels[d + 1].next
      ensures evaluated == ev0 + [Candidate(splitCost, levels[d].temp)]
      ensures FirstMinimum(evaluated, win, BestCost(d), levels[d].next, psyRd)
      ensures win0 >= 0 ==> win >= 0
      ensures win == -1 ==> win0 == -1 && BestCost(d) == old(BestCost(d)) && levels[d].next == old(levels[d].next)
      ensures Candidate(BestCost(d), levels[d].next) ==
              Promote(Candidate(old(BestCost(d)), old(levels[d].next)),
                      Candidate(splitCost, old(levels[d + 1].next)), psyRd)
      ensures Nexts() == old(Nexts())[d := levels[d].next]
    {
      SetTempCost(d, splitCost);
      StoreSplitContext(d);
      ghost var lv := levels[d];
      assert lv.BestCost() == old(BestCost(d)) && lv.next == old(levels[d].next);
      ghost var wins := Sel(splitCost, psyRd) < Sel(lv.BestCost(), psyRd);
      ghost var c := Candidate(splitCost, lv.temp);
      FirstMinimumStep(ev0, win0, lv.BestCost(), lv.next, c, psyRd);
      CheckBestMode(d);
      evaluated := ev0 + [c];
      win := if wins then |ev0| else win0;
    }

    /**
     * compressIntraCU: evaluate the unsplit candidates of `n`, then, unless it is a leaf, the
     * four children in z-order, and keep the cheaper of "unsplit" and "split".
     *
     * The ghost results record the candidates in evaluation order, the index of the winner
     * (-1 when nothing was ever promoted) and the visits of the split loop.
     */
    method CompressIntra(n: CUNode, d: nat, o: IntraOracle)
      returns (ghost evaluated: seq<Candidate>, ghost win: int, ghost visits: seq<ChildVisit>)
      requires Valid() && d <= maxDepth && WellFormed(n, d, maxDepth)
      requires FiniteTrials(o, psyRd)
      requires levels[d].BestCost() == Unset
      modifies this
      decreases n, 3
      ensures Valid()
      ensures forall e :: 0 <= e < d ==> levels[e] == old(levels[e])
      ensures levels[d].cur == old(levels[d].cur)
      // the candidates evaluated, and the winner: the first of minimum cost
      ensures evaluated == UnsplitCandidates(n, d, maxDepth, levels[d].cur, o) +
        (if n.leaf then []
         else [Candidate(SumBest(visits).Plus(SplitFlagCost(n, o)), levels[d].temp)])
      ensures FirstMinimum(evaluated, win, BestCost(d), levels[d].next, psyRd)
      ensures !n.splitMandatory ==> win >= 0
      ensures win == -1 ==> BestCost(d) == Unset && levels[d].next == old(levels[d].next)
      // the sibling protocol of the split loop
      ensures n.leaf ==> visits == []
      ensures !n.leaf ==> PartsOf(visits) == PresentParts(n.children, 4)
      ensures SiblingProtocol(visits, levels[d].cur)
      ensures !n.leaf ==> levels[d].temp == levels[d + 1].next
      ensures |visits| > 0 ==> d < maxDepth && levels[d + 1].next == visits[|visits| - 1].exit
      // the reference walk of the quadtree
      ensures Outcome(BestCost(d), Nexts()) == Walk(n, d, levels[d].cur, old(Nexts()), maxDepth, psyRd, o)
    {
      visits := [];
      evaluated, win := EvaluateUnsplit(n, d, o);
      if !n.leaf {
        evaluated, win, visits := EvaluateSplit(n, d, o, evaluated, win);
      }
    }

    /** compressCTU for an I-slice CTU without a saved analysis: the depth-0 context is loaded
        from the caller's snapshot, both depth-0 CUs are initialised, and the quadtree is walked. */
    method CompressCTU(root: CUNode, initialContext: nat, o: IntraOracle)
      requires Valid() && WellFormed(root, 0, maxDepth) && FiniteTrials(o, psyRd)
      modifies this
      ensures Valid()
      ensures levels[0].cur == initialContext
      ensures forall c <- UnsplitCandidates(root, 0, maxDepth, initialContext, o) ::
        Sel(BestCost(0), psyRd) <= Sel(c.cost, psyRd)
      ensures Outcome(BestCost(0), Nexts()) == Walk(root, 0, initialContext, old(Nexts()), maxDepth, psyRd, o)
    {
      levels := levels[0 := levels[0].(cur := initialContext)];
      assert Nexts() == old(Nexts());
      InitSubCU(0, false);
      InitSubCU(0, true);
      ghost var e: seq<Candidate>, w: int, v: seq<ChildVisit>;
      e, w, v := CompressIntra(root, 0, o);
      forall c <- UnsplitCandidates(root, 0, maxDepth, initialContext, o)
        ensures Sel(BestCost(0), psyRd) <= Sel(c.cost, psyRd)
      {
        var j :| 0 <= j < |e| && e[j] == c;
      }
    }
  }

  /** Roles are exclusive: in a valid pool no pixel buffer is owned by two (depth, role) pairs. */
  lemma NoSharedBuffer(levels: seq<Level>, d1: nat, r1: BufRole, d2: nat, r2: BufRole)
    requires forall d :: 0 <= d < |levels| ==> levels[d].Valid(d)
    requires d1 < |levels| && d2 < |levels| && (d1, r1) != (d2, r2)
    ensures BufAt(levels[d1], r1) != BufAt(levels[d2], r2)
  {
    assert BufAt(levels[d1], r1).depth == d1 && BufAt(levels[d2], r2).depth == d2;
  }
}
