# A verified model of x265's coding-tree mode decision

This project models the decision and bookkeeping layer of `source/encoder/analysis.cpp` in x265. That file is the driver that walks the HEVC (ITU-T H.265) coding quadtree of each CTU. It tries prediction modes at each depth, keeps the cheapest, and decides whether to split. Pixel kernels, motion search and the entropy coder are not part of this model. They enter as function-valued parameters ("oracles") that return costs, bits and entropy-context ids. What the model keeps is the logic between those calls:

- **Candidate promotion and the context protocol** (`mode_pool.dfy`, module `ModePool`). The per-depth workspace is a class, `Analysis`. Each depth has a best and a temp CU descriptor, four pixel-buffer handles, and three entropy-context slots (`cur`, `next`, `temp`). `checkBestMode` swaps roles only on a strictly lower cost. `compressIntraCU` is modelled as a recursion over a well-formed quadtree. It follows the sibling protocol: child 0 starts from the parent's `cur`, later children start from the `next` their previous sibling left, and the parent's `temp` receives the child depth's `next`. The recursion is proved against a ghost reference, `Walk`, that computes the best cost and the `next` register of every depth straight from the quadtree and the oracles. Separately, `Walk`'s choice is proved to be the first candidate of minimum cost.
- **Mode-gating rules** (`mode_gating.dfy`, module `ModeGating`):
  - `deriveTestModeAMP` and `checkDQP`;
  - the SA8D choice among 2Nx2N, Nx2N and 2NxN with its buffer exchanges;
  - the merge/bidir/L0/L1 choice of `parallelInterSearch`;
  - the "infeasible" markers of `checkInter_rd0_4`.
- **Argmin loops** (`intra_search.dfy`, `merge_scan.dfy`, `motion_search.dfy`):
  - the luma direction search of `checkIntraInInter_rd0_4`, exhaustive and fast;
  - the merge-candidate scan with the frame-parallel vertical-motion filter;
  - the AMVP predictor loop and the per-list best update of `parallelME`.
- **Integer heuristics** (`depth_heuristics.dfy`, `motion_search.dfy`):
  - the minimum-depth derivation from the co-located CUs, including its unsigned 32-bit subtraction;
  - the 60/40 blended early-exit average;
  - the per-CTU running average (a class over two arrays);
  - the job-id to (list, reference) split;
  - the bidirectional bit count;
  - the per-depth sizing of `create`.
- **`fillOrigYUVBuffer`** (`orig_buffer.dfy`): the strided-to-packed copy of the three planes, on arrays, with its loops.

Each loop is a method proved against a specification function (for example `MergeScanOf`, `Scan`, `Packed` and `DeriveMinDepth`). Lemmas then prove what the encoder relies on: first-minimum selection, bounds, round trips, and exclusivity of buffer roles. `common.dfy` holds the shared constants (`MAX_UINT`, `MAX_INT`, `MAX_INT64`), the explicit 32-bit wrap `U32`, and the partition-shape enumeration.

## Model

| member | source | states |
|---|---|---|
| ModePool.InitialLevel | source/encoder/analysis.cpp:109-137 | a depth's workspace as allocated: two distinct CU descriptors (6 best, 7 temp) and four distinct buffers, all of that depth |
| ModePool.Analysis.constructor | source/encoder/analysis.cpp:81-147 | every depth from 0 to the deepest has a valid workspace with CU 6 as best and CU 7 as temp |
| ModePool.Analysis.CheckBestMode | source/encoder/analysis.cpp:2617-2635 | when the temp cost (psy-RD or RD, as configured) is strictly lower, the CU roles, prediction buffers and reconstruction buffers of that depth are exchanged and `next` receives `temp`; on a tie or higher cost the depth is unchanged; other depths never change; the roles stay exclusive |
| ModePool.Analysis.InitSubCU | source/encoder/analysis.cpp:594-597 | the CU in the chosen role gets the unset cost MAX_INT64 and nothing else changes |
| ModePool.Analysis.CheckIntra | source/encoder/analysis.cpp:811-856 | the trial of a shape is coded from the depth's `cur`; its cost lands in the temp CU and its exit context in `temp` |
| ModePool.Analysis.AddCost | source/encoder/analysis.cpp:568-572 | the split-flag cost is added to the CU in the chosen role only |
| ModePool.Analysis.SetTempCost | source/encoder/analysis.cpp:613-623 | the split candidate's cost is placed in the temp CU only |
| ModePool.Analysis.LoadChildContext | source/encoder/analysis.cpp:598-601 | child 0's `cur` is the parent's `cur`; child k > 0's `cur` is its own depth's `next`; nothing else changes |
| ModePool.Analysis.StoreSplitContext | source/encoder/analysis.cpp:649 | the parent's `temp` receives the child depth's `next`; nothing else changes |
| ModePool.Analysis.EvaluateUnsplit | source/encoder/analysis.cpp:557-578 | the depth's best cost and `next` are those of `UnsplitOutcome`: 2Nx2N compared with the unset best, then NxN at the deepest level, or else the zero split flag added to the best; the best is the first candidate of minimum cost; a forced split leaves the depth unchanged; only this depth's `next` changes |
| ModePool.Analysis.VisitChild | source/encoder/analysis.cpp:595-604 | a present child is initialised, entered with the sibling-protocol context, and compressed; the best cost it returns and the `next` contexts it leaves at every depth equal the reference `Walk` of the child from that entry context; shallower depths are unchanged |
| ModePool.Analysis.SplitChildren | source/encoder/analysis.cpp:585-611 | the split cost and the `next` context of every depth equal `ChildrenWalk`, the reference walk of the four children; exactly the present children are visited, in z-order; child 0 enters with the parent's `cur` and each later child with the `next` its predecessor left; the split cost is the sum of the children's best costs |
| ModePool.Analysis.SplitStep | source/encoder/analysis.cpp:590-610 | one pass of the split loop keeps its progress: the split cost and every `next` context are those of `ChildrenWalk` over the children so far; the visited parts are exactly the present children so far, in z-order, under the sibling protocol; the child depth's `next` is the last child's exit; shallower depths are unchanged |
| ModePool.Analysis.EvaluateSplit | source/encoder/analysis.cpp:585-650 | the split candidate is priced from `ChildrenWalk` (the children's best costs plus the cost of a set split flag when the node may also stay unsplit) and carries the child depth's final `next`; the new best and `next` are `Promote` of the earlier best and that candidate; the candidate is appended after the unsplit candidates and the best stays the first of minimum cost; an existing best is never lost |
| ModePool.Analysis.PromoteSplit | source/encoder/analysis.cpp:619-650 | the split cost lands in the temp CU and the child depth's `next` in the parent's `temp`; the depth's best and `next` become `Promote` of the old best and the split candidate (a win only on a strictly lower cost), so the best stays the first candidate of minimum cost; other depths never change |
| ModePool.FirstMinimumStep | source/encoder/analysis.cpp:2617-2635 | comparing one more candidate with a strict `<` keeps "the best is the first candidate of minimum cost": a strictly cheaper candidate becomes the best, and otherwise the best and its context stay |
| ModePool.Promote | source/encoder/analysis.cpp:2617-2635 | checkBestMode on values: the result is the kept best or the trial, no dearer than either, and on a tie or higher cost the kept best stays |
| ModePool.Walk | source/encoder/analysis.cpp:539-650 | the reference recursion of compressIntraCU (unsplit half, the present children in z-order under the sibling protocol, then the split candidate); it changes the `next` context only of its own depth and deeper ones |
| ModePool.ChildrenWalk | source/encoder/analysis.cpp:585-611 | the reference walk of the first k children: it changes the `next` context only of the child depth and deeper ones |
| ModePool.UnsplitIsFirstMinimum | source/encoder/analysis.cpp:557-578 | with real trial costs the unsplit half keeps the first unsplit candidate of minimum cost, and keeps none (leaving the best unset and `next` alone) exactly when the split is forced |
| ModePool.WalkIsFirstMinimum | source/encoder/analysis.cpp:539-650 | at every node the reference walk keeps the first of its candidates (unsplit ones, then the split candidate) of minimum cost; it keeps one whenever the node may stay unsplit, and keeping none leaves the best unset and the node's `next` alone |
| ModePool.Analysis.CompressIntra | source/encoder/analysis.cpp:539-650 | the depth's best cost and the `next` context of every depth equal the reference `Walk` of the quadtree; the candidates are evaluated in source order (unsplit ones, then the split) and the best is the first of minimum cost, never dearer than any candidate; a node that may stay unsplit always gets a best; the parent's `temp` is the child depth's final `next` |
| ModePool.Analysis.CompressCTU | source/encoder/analysis.cpp:415-443 | depth 0 starts from the initial context, and the CTU's best cost and every depth's `next` equal the reference `Walk` of the whole quadtree from that context; the best is no dearer than any unsplit candidate at the root |
| ModePool.NoSharedBuffer | source/encoder/analysis.cpp:2625-2632 | in a valid pool, no pixel buffer is owned by two (depth, role) pairs, however many exchanges took place |
| ModeGating.ParentIsAmpShapes | source/encoder/analysis.cpp:2650 | the enumeration range SIZE_2NxnU..SIZE_nRx2N is exactly the four asymmetric shapes |
| ModeGating.DeriveTestModeAMP | source/encoder/analysis.cpp:2637-2676 | each of the four flags, stated as an if-and-only-if over the best shape, its merge and skip flags, the parent shape, the incoming flag and the 64x64 rule |
| ModeGating.AmpOrientation | source/encoder/analysis.cpp:2640-2675 | from cleared flags: 2NxN enables horizontal AMP only, Nx2N vertical only, and a coded 2Nx2N both; 64x64 or any other shape enables neither |
| ModeGating.MergeAmpSurvivesAt64 | source/encoder/analysis.cpp:2664-2675 | a 64x64 CU whose best is a non-skipped 2Nx2N tests no pure AMP but still tests merge-AMP on both sides |
| ModeGating.CheckDQP | source/encoder/analysis.cpp:2678-2689 | with delta-QP on, a shallow-enough CU without coded coefficients gets the reference QP on every partition; otherwise the CU is unchanged; nothing but the QPs ever changes |
| ModeGating.CheckDQPIdempotent | source/encoder/analysis.cpp:2678-2689 | applying checkDQP twice equals applying it once |
| ModeGating.PredHandles.Promote2Nx2N | source/encoder/analysis.cpp:1068 | the best handle and the 2Nx2N handle are exchanged; the set of handles is preserved |
| ModeGating.PredHandles.PromoteNx2N | source/encoder/analysis.cpp:1075-1079 | the best handle and the Nx2N handle are exchanged; the set of handles is preserved |
| ModeGating.PredHandles.Promote2NxN | source/encoder/analysis.cpp:1080-1084 | the best handle and the 2NxN handle are exchanged; the set of handles is preserved |
| ModeGating.ChooseRect | source/encoder/analysis.cpp:1063-1084 | the winner is the first shape of minimum SA8D cost in the order 2Nx2N, Nx2N, 2NxN (only 2Nx2N without rectangular shapes); the best handle is the winner's buffer; the handles are only permuted |
| ModeGating.SelectPU | source/encoder/analysis.cpp:2092-2145 | the selected prediction has minimum cost, and among equal costs it is the first in the order L0, L1, bidir, merge |
| ModeGating.SelectPUUnique | source/encoder/analysis.cpp:2092-2145 | any choice with the minimum-cost and priority properties is the one selected, so the two properties define the selection |
| ModeGating.FinishPU | source/encoder/analysis.cpp:2092-2145 | the merge flag is set exactly for merge; the inter direction is the merge candidate's, or 3, 1, 2 for bidir, L0, L1; the chosen bits are added to the 32-bit bit count |
| ModeGating.NoMergeFor2Nx2N | source/encoder/analysis.cpp:1980-1991 | for a 2Nx2N PU the merge cost stays MAX_UINT, so merge is never selected against 32-bit costs |
| ModeGating.CheckInterRd04 | source/encoder/analysis.cpp:2155-2183 | the shape is recorded; a successful search leaves its bits, distortion and SA8D cost; a failed one sets distortion MAX_UINT, RD cost MAX_INT64 and zero bits, and leaves the SA8D cost untouched |
| ModeGating.InfeasibleNeverPromoted | source/encoder/analysis.cpp:2178-2182 | a failed trial never wins a strict RD comparison against a cost of at most MAX_INT64 |
| ModeGating.StaleSa8dDecidesRect | source/encoder/analysis.cpp:1075-1084 | the rectangular choice reads only SA8D costs, so an Nx2N trial whose search failed can still win on its stale SA8D cost |
| IntraSearch.Keep | source/encoder/analysis.cpp:2308 | COPY4_IF_LT: the result is one of the two and no dearer than either, and on a tie the running best is kept |
| IntraSearch.Scan | source/encoder/analysis.cpp:2365-2369 | a run of COPY4_IF_LT over a probe order is no dearer than its start or any probed direction |
| IntraSearch.ScanFirstMin | source/encoder/analysis.cpp:2365-2369 | a scan keeps its start, or ends on a probed direction that is strictly cheaper than the start and than every direction probed before it |
| IntraSearch.ScanMode | source/encoder/analysis.cpp:2334-2358 | the direction a scan ends on is its start's or one it probed |
| IntraSearch.Angles | source/encoder/analysis.cpp:2365 | the exhaustive loop probes the 33 angular directions 2..34 in increasing order |
| IntraSearch.Samples | source/encoder/analysis.cpp:2334 | the sampling loop probes 5, 10, ..., 30 |
| IntraSearch.Sampled | source/encoder/analysis.cpp:2331-2338 | the sampled best direction lies in 5..30 |
| IntraSearch.Refine | source/encoder/analysis.cpp:2343-2352 | a refinement step ends within `dist` of the direction it started from |
| IntraSearch.Refined2 | source/encoder/analysis.cpp:2341-2353 | after refining at distance 2 the best lies in 3..32 |
| IntraSearch.Refined1 | source/encoder/analysis.cpp:2341-2353 | after refining at distance 1 the best lies in 2..33 |
| IntraSearch.ExhaustiveOrder | source/encoder/analysis.cpp:2286-2369 | the exhaustive probe order is DC, planar, then 2..34 |
| IntraSearch.ExhaustiveIsFirstMinimum | source/encoder/analysis.cpp:2286-2370 | the exhaustive search returns the first direction of minimum cost over DC, planar, 2..34: none is cheaper, and all earlier ones are strictly dearer |
| IntraSearch.FastProbesInRange | source/encoder/analysis.cpp:2341-2359 | the fast path probes only directions 2..34 (the asserted lowmode/highmode bounds), and probes 34 only when the refined best is 33 |
| IntraSearch.FastIsNoDearerThanProbed | source/encoder/analysis.cpp:2328-2361 | the fast path's result costs no more than DC, planar, every probed angle and MAX_INT64 |
| IntraSearch.FastAngleIsScan | source/encoder/analysis.cpp:2329-2359 | the fast angle phase is one COPY4_IF_LT scan, from cost MAX_INT64 and direction 5, over the directions it probes in order |
| IntraSearch.FastIsFirstMinimum | source/encoder/analysis.cpp:2327-2361 | with a cost below MAX_INT64 the fast path returns the first direction of minimum cost in the order DC, planar, then its probes: none is cheaper and every earlier one is strictly dearer (every COPY4_IF_LT is strict) |
| IntraSearch.AngleWinnerIsFirstMinimum | source/encoder/analysis.cpp:2361 | the final strict COPY4_IF_LT of the DC/planar winner with any angle scan from the angle start yields, below MAX_INT64, the first direction of minimum cost over DC, planar and the scanned directions |
| IntraSearch.SampleAngles | source/encoder/analysis.cpp:2333-2338 | the sampling loop computes the sampled best |
| IntraSearch.RefineStep | source/encoder/analysis.cpp:2343-2352 | one pass of the refinement loop probes the lower, then the upper direction |
| IntraSearch.RefineAngles | source/encoder/analysis.cpp:2340-2353 | the refinement loop computes the distance-2, then distance-1 refinement |
| IntraSearch.AllAngles | source/encoder/analysis.cpp:2363-2369 | the exhaustive loop computes the scan over 2..34 |
| IntraSearch.SearchLumaDirection | source/encoder/analysis.cpp:2286-2370 | the search as run: DC, planar if strictly cheaper, then the fast or exhaustive angle phase; it equals the specified choice |
| MergeScan.MergeScanOf | source/encoder/analysis.cpp:1761-1792 | the scan returns -1 with the incumbent cost, or an eligible candidate whose SA8D cost is strictly below the incumbent |
| MergeScan.MergeScanIsFirstMinimum | source/encoder/analysis.cpp:1761-1792 | the result is no dearer than any eligible candidate and strictly cheaper than every eligible candidate before it |
| MergeScan.NoCandidateBelowIncumbent | source/encoder/analysis.cpp:1761-1797 | no candidate is chosen exactly when no eligible one is strictly below the incumbent; with frame parallelism a chosen candidate has both vertical motions below (searchRange + 1) * 4 |
| MergeScan.MergeWorkspace.TryCandidate | source/encoder/analysis.cpp:1763-1790 | an eligible candidate is tried in the scratch CU; when strictly cheaper, the CUs and the prediction buffers trade places |
| MergeScan.MergeWorkspace.ScanCandidates | source/encoder/analysis.cpp:1761-1792 | the candidate loop yields the specified scan's index and cost; the best CU is the winner's trial, or unchanged; the buffers are only exchanged |
| MergeScan.MergeWorkspace.CheckMerge2Nx2N | source/encoder/analysis.cpp:1740-1808 | without a winner the best CU's merge flag is cleared; with one the scratch CU is reloaded with the winner's index, direction, motion, bits, distortion and cost |
| MotionSearch.JobToListRef | source/encoder/analysis.cpp:342-351 | ids below numRef0 search list 0 with ref = id; later ids search list 1 with ref = id - numRef0 |
| MotionSearch.JobRoundTrip | source/encoder/analysis.cpp:342-351 | every job id names an existing reference, and numbering it back gives the id |
| MotionSearch.ListRefRoundTrip | source/encoder/analysis.cpp:342-351 | every existing (list, ref) pair is searched by exactly one job id |
| MotionSearch.MvpScanOf | source/encoder/analysis.cpp:368-389 | the predictor loop starts at MAX_INT with index 0; a cost below MAX_INT belongs to an eligible candidate at the returned index |
| MotionSearch.MvpIsFirstMinimum | source/encoder/analysis.cpp:368-389 | the chosen predictor is the first eligible one of minimum SAD |
| MotionSearch.FilteredPredictorStillSeeds | source/encoder/analysis.cpp:368-392 | when every predictor is filtered out, the search is still seeded with predictor 0, which the filter rejected |
| MotionSearch.ChooseMvp | source/encoder/analysis.cpp:368-389 | the AMVP loop computes the specified predictor choice, with an index below AMVP_NUM_CANDS |
| MotionSearch.Better | source/encoder/analysis.cpp:404-412 | a finished search replaces the list's best only when strictly cheaper |
| MotionSearch.OfferedIsMinimum | source/encoder/analysis.cpp:404-412 | after any sequence of reports, the best is one of them (or the start) and no dearer than any |
| MotionSearch.OfferedCostIndependentOfOrder | source/encoder/analysis.cpp:404-412 | the finishing order of the reference searches does not change the best cost |
| MotionSearch.TieKeepsFirstReported | source/encoder/analysis.cpp:404 | on equal costs the result reported first is kept, so the surviving motion vector depends on the finishing order |
| MotionSearch.BidirBits | source/encoder/analysis.cpp:2031 | the bidirectional bit count is the formula's value modulo 2^32 |
| MotionSearch.BidirBitsSwapSelection | source/encoder/analysis.cpp:2031 | when each list's bits include its own selection bits, the count swaps them for the bidirectional selection bits without wrap-around |
| MotionSearch.BestMotion.ResetCosts | source/encoder/analysis.cpp:1962-1963 | both lists' best costs become MAX_UINT and nothing else changes |
| MotionSearch.BestMotion.ParallelME | source/encoder/analysis.cpp:325-413 | one job: the job id selects list and reference; the bits start as selection + predictor-index + reference-index bits; the chosen predictor seeds the search; only that list's best is updated, and only when strictly cheaper |
| DepthHeuristics.SampleStats | source/encoder/analysis.cpp:893-905 | the sampled minimum never exceeds its start value 4 |
| DepthHeuristics.SampleMinFacts | source/encoder/analysis.cpp:896-899 | the sampled minimum is at most every sample, and is 4 or one of the samples |
| DepthHeuristics.SampleSumAtLeast | source/encoder/analysis.cpp:900-903 | the sum of four times each sample is at least four times the minimum per sample |
| DepthHeuristics.SampleSumFits | source/encoder/analysis.cpp:900-903 | with byte-sized depths the sum is at most 1020 per sample, so the 32-bit sums of a CTU do not wrap |
| DepthHeuristics.ListStats | source/encoder/analysis.cpp:888-905 | a list without a reference keeps the start values 4 and 0 |
| DepthHeuristics.DeriveMinDepth | source/encoder/analysis.cpp:887-915 | the derived minimum depth is at most 4 |
| DepthHeuristics.MinDepthBounds | source/encoder/analysis.cpp:906-914 | the result is the sampled minimum of both lists or one less; a QP drop keeps the minimum; the result is never above any sample |
| DepthHeuristics.BothListsNoWrap | source/encoder/analysis.cpp:906-909 | with both lists present and a whole number of samples, the doubled average is at least twice the minimum, so the subtraction does not wrap |
| DepthHeuristics.SingleListWrapKeepsMinimum | source/encoder/analysis.cpp:906-909 | with one list the unsigned subtraction wraps and keeps depth 2, while two lists with the same depths give 1 |
| DepthHeuristics.ComputeMinDepth | source/encoder/analysis.cpp:887-915 | the sampling loop computes the specified minimum depth |
| DepthHeuristics.TotalsBetween | source/encoder/analysis.cpp:1257-1278 | when every neighbour's average lies in [lo, hi], their summed cost lies between lo and hi times their summed count |
| DepthHeuristics.BlendedAverage | source/encoder/analysis.cpp:1257-1283 | the blended average is 0 when both counts are 0 |
| DepthHeuristics.BlendedWithinRange | source/encoder/analysis.cpp:1280-1283 | the 60/40 blend of averages that all lie in [lo, hi] lies in [lo, hi] |
| DepthHeuristics.EarlyExit | source/encoder/analysis.cpp:1248-1292 | recursion is skipped only at depth > 0, with a positive average strictly above the best cost |
| DepthHeuristics.EarlyExitNeedsCheaperHistory | source/encoder/analysis.cpp:1280-1292 | a best cost at least every recorded average never exits early |
| DepthHeuristics.RunningAverage | source/encoder/analysis.cpp:1327-1330 | the new average equals the cost when the count was 0, and lies between the old average and the new cost |
| DepthHeuristics.CtuStats.Update | source/encoder/analysis.cpp:1327-1330 | the depth's count grows by exactly 1 and its average becomes the running average; other depths are unchanged |
| DepthHeuristics.DepthSizing | source/encoder/analysis.cpp:83-87 | the luma area fits in 32 bits, the chroma area is no larger, and the CU width is at most the CTU width |
| DepthHeuristics.SizingOfDepth | source/encoder/analysis.cpp:83-87 | at depth i the CU width is 4 * 2^(maxFullDepth - i) and the luma area is 16 per 4x4 partition |
| DepthHeuristics.SizingConsistent | source/encoder/analysis.cpp:83-87 | partitions shrink by four per depth, the luma area is 16 samples per partition, and the chroma area is the luma area over 4, 2 or 1 for 4:2:0, 4:2:2 and 4:4:4 |
| OrigBuffer.RowStartIsProduct | source/encoder/analysis.cpp:2710 | advancing the source row by the stride y times reaches y * stride |
| OrigBuffer.PackedLength | source/encoder/analysis.cpp:2704-2711 | the packed block has width * height samples |
| OrigBuffer.PackedIndex | source/encoder/analysis.cpp:2704-2711 | sample (x, y) of the packed block is source sample y * stride + x |
| OrigBuffer.PackedContiguous | source/encoder/analysis.cpp:2704-2711 | when the stride equals the width, the packed block is the source prefix |
| OrigBuffer.CopyRow | source/encoder/analysis.cpp:2706-2707 | the inner loop copies one row and leaves every other destination sample unchanged |
| OrigBuffer.CopyNextRow | source/encoder/analysis.cpp:2705-2711 | one pass of the luma loop extends the copied packed rows by one |
| OrigBuffer.CopyPlane | source/encoder/analysis.cpp:2704-2711 | the luma destination becomes the packed block followed by its old remaining samples |
| OrigBuffer.CopyRowPair | source/encoder/analysis.cpp:2726-2730 | the inner chroma loop copies one row of both planes |
| OrigBuffer.CopyNextRowPair | source/encoder/analysis.cpp:2725-2736 | one pass of the chroma loop extends both planes' packed rows by one |
| OrigBuffer.CopyPlanePair | source/encoder/analysis.cpp:2724-2736 | both chroma destinations become their packed blocks followed by their old remaining samples |
| OrigBuffer.FillOrigYUV | source/encoder/analysis.cpp:2691-2737 | for a CU of 2^log2Size, the luma plane becomes the packed n x n block, and both chroma planes become the packed (n >> hShift) x (n >> vShift) blocks, each followed by its old remaining samples |

## Left out

- Thread-pool dispatch, job counters, locks, completion events and slave-context seeding are not modelled. `parallelME` is one sequential job, and `Offered` folds the per-list best update over reports in finishing order. The finishing order depends on scheduling; the model only proves which properties do not depend on it.
- Pixel and entropy kernels are oracles:
  - the kernels: sa8d, SAD/SATD, intra prediction, motion compensation, `motionEstimate`, `checkBestMVP`, `fillMvpCand`, `getTUBits`;
  - entropy-coder bit counting, and `calcRdCost`/`calcPsyRdCost`/`calcRdSADCost`.

  `MVP_IDX_BITS` and the `CHROMA_H_SHIFT`/`CHROMA_V_SHIFT` macros are not part of this model: the first is a parameter, and the shifts are written out per chroma format.
- `copyPartFrom` and the cost recomputation are abstracted. The split candidate's cost is the sum of its present children's best costs plus the split-flag cost.
- The delta-QP fix-up of the split candidate (lines 629-647) and `setQPSubParts` on the merge path are left out. Their effect lives in per-partition QP arrays outside the model.
- `encodeResidue`, `compressSharedIntraCTU`, the CU-statistics logging and the analysis-save copies are left out: they are kernel calls or side-channel I/O.
- The inter cascade of `compressInterCU_rd0_4`/`compressInterCU_rd5_6` is modelled only through the rules above. This includes its sibling-context protocol (lines 1313-1316, 1387, 1666-1669, 1718), which repeats the `compressIntraCU` protocol modelled in `ModePool`. The merge RD stage (the `rdLevel >= 1` block, lines 1807-1837) is also left out.
- `create`'s allocation is modelled only as the initial pool and the sizing arithmetic.
- DepthHeuristics.BlendedAverage: the 64-bit sums are not reduced modulo 2^64. Averages times counts are assumed to fit, as the encoder's cost range implies.
- DepthHeuristics.RunningAverage: the 64-bit product `avgCost * count` is not reduced modulo 2^64.
- MotionSearch.BestMotion.ParallelME: the SAD costs and the search cost are taken as the oracle returns them, not reduced to 32 bits.
- MotionSearch.BidirBits: the source stores the result in an `int`. The model gives the unsigned 32-bit pattern, which is what the 32-bit cost function receives.
- ModeGating.CheckInterRd04: the SA8D cost of a successful distributed search is the oracle's value; the split between the two search routes is not modelled.
- DepthHeuristics.DeriveMinDepth: the QP difference of the two `char` QPs is taken as an integer difference. The list-0 co-located CU is required to exist, because line 891 dereferences it unconditionally.
