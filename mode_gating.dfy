/**
 * Gating decisions of the inter mode cascade: which asymmetric (AMP) shapes are worth trying,
 * the default-QP fix-up of a CU without residual, the choice among the rectangular inter
 * shapes by SA8D cost, the prediction chosen for an inter PU, and what an inter trial records
 * when motion search finds nothing.
 */
module ModeGating {
  import opened Common

  // ---------------------------------------------------------------------------------------
  // deriveTestModeAMP
  // ---------------------------------------------------------------------------------------

  /** What deriveTestModeAMP reads of the best CU found so far (its first partition). */
  datatype BestSummary = BestSummary(part: PartSize, merge: bool, skipped: bool, log2Size: nat)

  /** The four flags deriveTestModeAMP may set; the caller owns them and passes them in. */
  datatype AmpFlags = AmpFlags(hor: bool, ver: bool, mergeHor: bool, mergeVer: bool)

  const NoAmp := AmpFlags(false, false, false, false)

  /** A parent shape in the AMP range SIZE_2NxnU..SIZE_nRx2N of the enumeration. */
  predicate ParentIsAmp(parentSize: PartSize)
  {
    PartCode(Size2NxnU) <= PartCode(parentSize) <= PartCode(SizenRx2N)
  }

  /** The AMP range of the enumeration is exactly the four asymmetric shapes. */
  lemma ParentIsAmpShapes(p: PartSize)
    ensures ParentIsAmp(p) <==> IsAmpShape(p)
  {
  }

  /**
   * deriveTestModeAMP: pure AMP follows the orientation of the best symmetric shape (both
   * orientations after a coded 2Nx2N); merge-AMP also follows an AMP parent, an intra parent's
   * orientation and any non-skipped 2Nx2N; a 64x64 CU never tests pure AMP.  Flags are only
   * ever raised, except that the 64x64 rule clears the pure-AMP pair.
   */
  function DeriveTestModeAMP(best: BestSummary, parentSize: PartSize, f: AmpFlags): (r: AmpFlags)
    ensures r.hor <==>
      best.log2Size != 6 &&
      (f.hor || best.part == Size2NxN || (best.part == Size2Nx2N && !best.merge && !best.skipped))
    ensures r.ver <==>
      best.log2Size != 6 &&
      (f.ver || best.part == SizeNx2N || (best.part == Size2Nx2N && !best.merge && !best.skipped))
    ensures r.mergeHor <==>
      f.mergeHor || IsAmpShape(parentSize) || (parentSize == SizeNone && best.part == Size2NxN) ||
      (best.part == Size2Nx2N && !best.skipped)
    ensures r.mergeVer <==>
      f.mergeVer || IsAmpShape(parentSize) || (parentSize == SizeNone && best.part == SizeNx2N) ||
      (best.part == Size2Nx2N && !best.skipped)
  {
    var f1 :=
      if best.part == Size2NxN then f.(hor := true)
      else if best.part == SizeNx2N then f.(ver := true)
      else if best.part == Size2Nx2N && !best.merge && !best.skipped then f.(hor := true, ver := true)
      else f;
    var f2 := if ParentIsAmp(parentSize) then f1.(mergeHor := true, mergeVer := true) else f1;
    var f3 :=
      if parentSize == SizeNone then
        if best.part == Size2NxN then f2.(mergeHor := true)
        else if best.part == SizeNx2N then f2.(mergeVer := true)
        else f2
      else f2;
    var f4 := if best.part == Size2Nx2N && !best.skipped then f3.(mergeHor := true, mergeVer := true) else f3;
    if best.log2Size == 6 then f4.(hor := false, ver := false) else f4
  }

  /** From cleared flags: 2NxN enables horizontal AMP only, Nx2N vertical only, a coded (neither
      merged nor skipped) 2Nx2N both, below 64x64; at 64x64 no pure AMP at all. */
  lemma AmpOrientation(best: BestSummary, parentSize: PartSize)
    ensures var r := DeriveTestModeAMP(best, parentSize, NoAmp);
      && (best.log2Size != 6 && best.part == Size2NxN ==> r.hor && !r.ver)
      && (best.log2Size != 6 && best.part == SizeNx2N ==> !r.hor && r.ver)
      && (best.log2Size != 6 && best.part == Size2Nx2N && !best.merge && !best.skipped ==> r.hor && r.ver)
      && (best.log2Size == 6 ==> !r.hor && !r.ver)
      && (best.part !in {Size2NxN, SizeNx2N, Size2Nx2N} ==> !r.hor && !r.ver)
  {
  }

  /** A 64x64 CU whose best is a non-skipped 2Nx2N still tests merge-AMP on both sides. */
  lemma MergeAmpSurvivesAt64(best: BestSummary, parentSize: PartSize)
    requires best.log2Size == 6 && best.part == Size2Nx2N && !best.skipped
    ensures var r := DeriveTestModeAMP(best, parentSize, NoAmp);
      !r.hor && !r.ver && r.mergeHor && r.mergeVer
  {
  }

  // ---------------------------------------------------------------------------------------
  // checkDQP
  // ---------------------------------------------------------------------------------------

  /** What checkDQP reads and writes of a CU: its depth, the coded-block flags of its first
      partition, the reference (predicted) QP, and the QP of each of its partitions. */
  datatype DqpCU = DqpCU(depth: nat, cbfY: bool, cbfU: bool, cbfV: bool, refQP: int, qp: seq<int>)
  {
    predicate HasResidual() { cbfY || cbfU || cbfV }
  }

  /** checkDQP: with delta-QP enabled, a CU no deeper than the delta-QP depth and without any
      coded coefficients gets the reference QP on every partition; otherwise nothing changes. */
  function CheckDQP(cu: DqpCU, useDQP: bool, maxCuDQPDepth: nat): (r: DqpCU)
    ensures r.(qp := cu.qp) == cu && |r.qp| == |cu.qp|
    ensures useDQP && cu.depth <= maxCuDQPDepth && !cu.HasResidual() ==>
      forall i :: 0 <= i < |r.qp| ==> r.qp[i] == cu.refQP
    ensures !(useDQP && cu.depth <= maxCuDQPDepth && !cu.HasResidual()) ==> r == cu
  {
    if useDQP && cu.depth <= maxCuDQPDepth && !(cu.cbfY || cu.cbfU || cu.cbfV) then
      cu.(qp := seq(|cu.qp|, _ => cu.refQP))
    else cu
  }

  /** Applying checkDQP twice is the same as applying it once. */
  lemma CheckDQPIdempotent(cu: DqpCU, useDQP: bool, maxCuDQPDepth: nat)
    ensures CheckDQP(CheckDQP(cu, useDQP, maxCuDQPDepth), useDQP, maxCuDQPDepth) ==
            CheckDQP(cu, useDQP, maxCuDQPDepth)
  {
  }

  // ---------------------------------------------------------------------------------------
  // Rectangular shape choice by SA8D cost
  // ---------------------------------------------------------------------------------------

  /** The prediction-buffer handles: the depth's best buffer and the per-mode buffers.
      Promoting a mode is std::swap of its handle with the best handle. */
  datatype PredHandles = PredHandles(best: nat, p2Nx2N: nat, pNx2N: nat, p2NxN: nat)
  {
    function Contents(): multiset<nat> { multiset{best, p2Nx2N, pNx2N, p2NxN} }

    function Promote2Nx2N(): (r: PredHandles)
      ensures r.best == p2Nx2N && r.p2Nx2N == best && r.pNx2N == pNx2N && r.p2NxN == p2NxN
      ensures r.Contents() == Contents()
    {
      this.(best := p2Nx2N, p2Nx2N := best)
    }

    function PromoteNx2N(): (r: PredHandles)
      ensures r.best == pNx2N && r.pNx2N == best && r.p2Nx2N == p2Nx2N && r.p2NxN == p2NxN
      ensures r.Contents() == Contents()
    {
      this.(best := pNx2N, pNx2N := best)
    }

    function Promote2NxN(): (r: PredHandles)
      ensures r.best == p2NxN && r.p2NxN == best && r.p2Nx2N == p2Nx2N && r.pNx2N == pNx2N
      ensures r.Contents() == Contents()
    {
      this.(best := p2NxN, p2NxN := best)
    }
  }

  /** The SA8D costs of the three symmetric inter trials. */
  datatype ShapeCosts = ShapeCosts(c2Nx2N: nat, cNx2N: nat, c2NxN: nat)
  {
    function Of(p: PartSize): nat
    {
      if p == SizeNx2N then cNx2N else if p == Size2NxN then c2NxN else c2Nx2N
    }
  }

  /** The order in which the shapes are compared. */
  function RectRank(p: PartSize): nat
  {
    if p == Size2Nx2N then 0 else if p == SizeNx2N then 1 else 2
  }

  function HandleOf(h: PredHandles, p: PartSize): nat
  {
    if p == SizeNx2N then h.pNx2N else if p == Size2NxN then h.p2NxN else h.p2Nx2N
  }

  /**
   * 2Nx2N becomes best by exchanging the best buffer with its own; with rectangular shapes
   * enabled, Nx2N and then 2NxN replace the best only when strictly cheaper, again by exchange.
   * The winner is the first shape of minimum cost, the best handle is the buffer the winner was
   * predicted into, and the handles are only permuted.
   */
  function ChooseRect(c: ShapeCosts, rect: bool, h: PredHandles): (r: (PartSize, PredHandles))
    ensures r.0 in {Size2Nx2N, SizeNx2N, Size2NxN} && (!rect ==> r.0 == Size2Nx2N)
    ensures rect ==> forall p :: p in {Size2Nx2N, SizeNx2N, Size2NxN} ==>
      c.Of(r.0) <= c.Of(p) && (RectRank(p) < RectRank(r.0) ==> c.Of(r.0) < c.Of(p))
    ensures r.1.best == HandleOf(h, r.0)
    ensures r.1.Contents() == h.Contents()
  {
    var h0 := h.Promote2Nx2N();
    if !rect then (Size2Nx2N, h0)
    else
      var (b1, h1) := if c.cNx2N < c.c2Nx2N then (SizeNx2N, h0.PromoteNx2N()) else (Size2Nx2N, h0);
      if c.c2NxN < c.Of(b1) then (Size2NxN, h1.Promote2NxN()) else (b1, h1)
  }

  // ---------------------------------------------------------------------------------------
  // Final PU selection of parallelInterSearch
  // ---------------------------------------------------------------------------------------

  datatype PUChoice = MergePU | BidirPU | L0PU | L1PU

  /** The 32-bit costs the final selection compares. */
  datatype PUCosts = PUCosts(merge: nat, bidir: nat, l0: nat, l1: nat)
  {
    function Of(c: PUChoice): nat
    {
      match c
      case MergePU => merge
      case BidirPU => bidir
      case L0PU => l0
      case L1PU => l1
    }
  }

  /** Ties are resolved towards L0, then L1, then bidir, then merge. */
  function Priority(c: PUChoice): nat
  {
    match c
    case L0PU => 0
    case L1PU => 1
    case BidirPU => 2
    case MergePU => 3
  }

  /** The selection cascade: merge if strictly cheaper than the other three, else bidir if
      strictly cheaper than both single-list predictions, else L0 unless L1 is strictly cheaper.
      The result is the minimum-cost choice, the earliest in priority order among equals. */
  function SelectPU(k: PUCosts): (r: PUChoice)
    ensures forall c :: k.Of(r) <= k.Of(c)
    ensures forall c :: k.Of(c) == k.Of(r) ==> Priority(r) <= Priority(c)
  {
    if k.merge < k.bidir && k.merge < k.l0 && k.merge < k.l1 then MergePU
    else if k.bidir < k.l0 && k.bidir < k.l1 then BidirPU
    else if k.l0 <= k.l1 then L0PU
    else L1PU
  }

  /** The minimum-with-priority property determines the choice: any choice with both
      properties is the one SelectPU makes. */
  lemma SelectPUUnique(k: PUCosts, c: PUChoice)
    requires forall c' :: k.Of(c) <= k.Of(c')
    requires forall c' :: k.Of(c') == k.Of(c) ==> Priority(c) <= Priority(c')
    ensures c == SelectPU(k)
  {
    var r := SelectPU(k);
    assert k.Of(r) == k.Of(c);
    assert Priority(c) <= Priority(r) && Priority(r) <= Priority(c);
  }

  /** The parts of the selected prediction the CU records. */
  datatype PUResult = PUResult(choice: PUChoice, mergeFlag: bool, interDir: nat, totalBits: nat)

  /** The bits each choice adds to the CU's 32-bit bit count. */
  datatype PUBits = PUBits(merge: nat, bidir: nat, l0: nat, l1: nat)
  {
    function Of(c: PUChoice): nat
    {
      match c
      case MergePU => merge
      case BidirPU => bidir
      case L0PU => l0
      case L1PU => l1
    }
  }

  /** Records the selection: the merge flag only for merge, the inter direction of the merge
      candidate for merge and 3, 1, 2 for bidir, L0, L1; the choice's bits are added to the
      CU's bit count modulo 2^32. */
  function FinishPU(k: PUCosts, bits: PUBits, mergeInterDir: nat, totalBits: nat): (r: PUResult)
    requires IsU32(totalBits)
    ensures r.choice == SelectPU(k)
    ensures r.mergeFlag <==> r.choice == MergePU
    ensures r.choice != MergePU ==> r.interDir == Priority(r.choice) + 1 && 1 <= r.interDir <= 3
    ensures r.choice == MergePU ==> r.interDir == mergeInterDir
    ensures IsU32(r.totalBits) && (r.totalBits - totalBits - bits.Of(r.choice)) % TWO_32 == 0
  {
    var c := SelectPU(k);
    match c
    case MergePU => PUResult(c, true, mergeInterDir, U32(totalBits + bits.merge))
    case BidirPU => PUResult(c, false, 3, U32(totalBits + bits.bidir))
    case L0PU => PUResult(c, false, 1, U32(totalBits + bits.l0))
    case L1PU => PUResult(c, false, 2, U32(totalBits + bits.l1))
  }

  /** For a 2Nx2N PU no merge estimation runs, its cost stays MAX_UINT, and since every 32-bit
      cost is at most MAX_UINT merge is never selected. */
  lemma NoMergeFor2Nx2N(k: PUCosts)
    requires k.merge == MAX_UINT && IsU32(k.bidir) && IsU32(k.l0) && IsU32(k.l1)
    ensures SelectPU(k) != MergePU
  {
  }

  // ---------------------------------------------------------------------------------------
  // checkInter_rd0_4
  // ---------------------------------------------------------------------------------------

  /** The parts of an inter trial CU that checkInter_rd0_4 writes or the cascade compares. */
  datatype InterTrial = InterTrial(part: PartSize, totalBits: nat, distortion: nat, rdCost: nat, sa8dCost: nat)

  /** What the motion search reports: the bits it accumulated with the distortion and SA8D cost
      of its prediction, or failure. */
  datatype SearchOutcome = Found(bits: nat, distortion: nat, sa8dCost: nat) | NotFound

  /** checkInter_rd0_4: the shape is recorded and the bit count cleared; a successful search
      leaves its bits, distortion and SA8D cost; a failed one leaves the "infeasible" markers
      MAX_UINT distortion and MAX_INT64 RD cost, and does not touch the SA8D cost. */
  function CheckInterRd04(cu: InterTrial, part: PartSize, s: SearchOutcome): (r: InterTrial)
    ensures r.part == part
    ensures s.Found? ==> r == cu.(part := part, totalBits := s.bits, distortion := s.distortion, sa8dCost := s.sa8dCost)
    ensures s.NotFound? ==>
      r.distortion == MAX_UINT && r.rdCost == MAX_INT64 && r.totalBits == 0 && r.sa8dCost == cu.sa8dCost
  {
    var c := cu.(part := part, totalBits := 0);
    match s
    case Found(bits, dist, sa8d) => c.(totalBits := bits, distortion := dist, sa8dCost := sa8d)
    case NotFound => c.(distortion := MAX_UINT, rdCost := MAX_INT64)
  }

  /** An infeasible trial never wins a strict RD comparison against a cost of at most
      MAX_INT64, whatever CU it was run on. */
  lemma InfeasibleNeverPromoted(cu: InterTrial, part: PartSize, incumbent: nat)
    requires incumbent <= MAX_INT64
    ensures !(CheckInterRd04(cu, part, NotFound).rdCost < incumbent)
  {
  }

  /** The rectangular choice reads only SA8D costs, which a failed search leaves as they were:
      an Nx2N trial whose search failed still wins if its stale SA8D cost is lower. */
  lemma StaleSa8dDecidesRect()
    ensures var nx2n := CheckInterRd04(InterTrial(SizeNone, 0, 0, 0, 1), SizeNx2N, NotFound);
      nx2n.rdCost == MAX_INT64 &&
      ChooseRect(ShapeCosts(100, nx2n.sa8dCost, 100), true, PredHandles(0, 1, 2, 3)).0 == SizeNx2N
  {
  }
}
