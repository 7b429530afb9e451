# Proofs about parts of ONNX Runtime

This project models parts of the ONNX Runtime tree under `pim_sw/ort_project_release/onnxruntime` in Dafny
and proves what those parts promise. `dafny verify dfyconfig.toml` checks everything.

## The parts

**Memory-pattern planner** (`Schedules`, `MemPattern`, `PlannerSpec`, `Planner`, `PlannerRuns`, `ResizedRuns`,
`CounterRuns`, `ReplayRuns`). The planner records allocations and frees of one iteration and plans an offset for each
value. It places blocks by best fit over a list of live blocks sorted by offset. In plain mode a block is live until it
is freed; in counter mode two values may share bytes when their time schedules do not meet. `PlannerSpec` says what one
call does to the state, `Planner` has the object with its loops, and `PlannerRuns` has the theorems about whole runs.
One invariant covers both modes: two live blocks that conflict share no byte, where without schedules any two blocks
conflict. The training build (`ENABLE_TRAINING`) is assumed. The mutex makes calls atomic, which is how methods behave
here.

Two promises hold under conditions only, and the project proves the exact ones. Both are conditions on the order of the
calls, which a caller can check before tracing; each says for which traces the promise holds whatever the sizes are.

- Counter mode: pattern generation succeeds for all sizes exactly if no value is traced after a free of a value whose
  schedule meets its own (`CounterModeIsSafeIff`). `CounterFreeCanClash` is the shortest trace that fails.
- Plain mode: giving each index its block of the final pattern keeps apart what is live together, for all sizes that
  sum up to a `size_t`, exactly if any two indices that are live together at some moment are also live together for
  their last traces (`ReplayIsSafeIff`); an index is live from a trace of it to its next free.
  `RepeatedIndexCanOverlap` is a trace of four calls that fails.

The lemmas `CounterRunIsClashFree` and `ReplayIsOverlapFree` are the forms for given sizes.

**Planned weights** (`WeightPlans`, `TensorAllocator`). Sizes of weights are traced, one buffer per location is
reserved, and each weight gets its part of the buffer of its location. `WeightPlans` says what the traces plan and when
buffers can be reserved; `TensorAllocator` is the object. Its ghost fields record the accepted traces, the traces before
the last and before the first `FinalizePlan`, the entries the first call made, and the number of calls. Each call appends
its patterns to those of the calls before, which has three consequences:

- A call succeeds exactly if every planned location has an allocator and no weight traced before an earlier call takes
  memory (`FinalizePlan`). So a retry after a missing allocator fails even with all allocators, unless nothing needed
  memory before.
- With all allocators, each such failing call frees a buffer that stays in the list of owned buffers; `FixTwice` is the
  shortest way there. A first call never does.
- Lookups find the patterns of the first call, so weights traced after it are not handed out (`HandedOutIff`).

**GPT attention fusion** (`GraphModel`, `GraphFacts`, `GemmMatch`, `GemmClosure`, `UnidirMatch`, `UnidirClosure`,
`MaskMatch`, `PathChecks`, `FusionMatch`, `FusionDivisor`, `FusionFacts`, `FusionRemoval`, `FusionClosure`, `GptFusion`,
`FusedNode`, `FusionTouches`, `MaskSharing`). A graph is a map of nodes and a set of edges
`(source, output, destination, input)` with at most one edge per input.
Each matcher is a method whose contract says that it returns a match exactly if the pattern is there. From a match the
project derives facts about operators and out-edge counts (`FusionFacts`), and from those facts alone that no node is
listed for removal twice and that removed nodes have no consumers outside. `MaskSharing` treats whole runs of fusions
over layers with one common mask. The path search, the out-edge check and the removal of nodes follow their documented
contracts (`graph_utils.h:209-255`, `optimizer/utils.h:84-89`, `graph.h:804-814`), since their bodies are not visible.

The fusion never checks what the scores are divided by. It asks for the head size as -1 and can only get -1 back, so the
check compares the divisor with the square root of -1, which is not a number. Whether such a comparison counts as a
match is decided by code that is not visible and is the parameter `nanMatches`. If it does not, nothing is ever fused
(`FusionNeedsNan`); in either case the value of the divisor plays no part (`FusionIgnoresDivisor`). The check of the
value path compares a given head size with head count times head size; where both are positive it lets one head through
only (`PositiveCountsMeanOneHead`).

**Meaning of a fused layer** (`Tensors`, `GraphValues`, `CausalMask`, `InputMask`, `HeadLayout`, `PastState`,
`Projection`, `AttentionKernel`, `MaskPreparation`, `AttentionMeaning`). `GraphValues` says what it means that a graph has
been executed with given values, over exact reals and for any softmax. From a match the project derives what each part
computes, and compares the whole with the attention kernel that the fused node runs (`attention_cpu_base.h`,
`attention_helper.h`). The findings:

- The scores of a layer and of the kernel agree at a key exactly if query and key are orthogonal, or the layer divides by
  the square root of the head size and the key is not ahead of the query (`ScoresAgreeIff`). For a key ahead the layer
  replaces the score by -10000, and the kernel adds -10000 to it.
- So with that divisor the results agree in every row that may see all keys: always in the last row, and so for each
  single new token, and in all rows if the mask is not causal (`FusionKeepsMeaning`). The present agrees always
  (`PresentsAgree`).
- The theorems list what the fusion relies on and does not check: the divisor; steps of the slices that read lengths;
  axes of the Gather and Concat nodes of the past, of the Split, and of a Softmax without an input mask; further inputs
  of Concat nodes; transpositions of the Gemm; that initializers which are not constant are not replaced; a mask constant
  at least as wide as all keys; and an input mask of zeros and ones.

**UTF-8** (`Utf8Grammar`, `Utf8Util`). The byte automaton against the grammar and the encoding of RFC 3629. The code is
wider than the grammar: it accepts two-byte units with lead byte C0 or C1. The theorems state exactly this.

**Arena index** (`RegionMap`, `RegionManager`, `ArenaBins`). Regions of 256-byte slots found by bisection behave like
one map from slots to chunk handles; the bins of free chunks bracket request sizes.

**Tensor kernels** (`Grid`, `MaskedPooling`, `MaxpoolWithMask`, `Crop`, `Initializers`, `Padding`). Loops over flat
buffers against statements about index vectors. Four findings:

- The mask of a pooled channel starts at `(c * x_step) % total_mask_channels` elements, which is the start of a mask
  channel only in the cases of `MaskStartsAtChannel`; `MaskOfWrongChannel` is an input where it is not.
- The comparison of mask and input shapes is commented out, so a mask can be read behind its end (`ShortMaskIsLeft`).
  `MaskReachIsExact` gives the shapes for which no mask of a length is left.
- The checks of the crop kernel let negative borders pass, for which the loops leave the input
  (`AcceptedCropStaysInside`, `NegativeBorderLeavesInput`), and negative scales, for which the output has a negative
  dimension (`AcceptedCropHasShapeIff`, `NegativeScaleHasNoShape`).
- `SAME_LOWER` padding is split unevenly exactly if the needed total is negative and even (`SplitIsEvenIff`,
  `UnevenSplit`).

## Model

| member | source | states |
|---|---|---|
| `Schedules.ProgramCounter.AddStart` | `pim_sw/ort_project_release/onnxruntime/core/framework/sequential_execution_plan.h:38-42` | accepts a start exactly if all intervals are closed and it lies behind the last end; the interval list stays strictly ordered, and a refused call changes nothing |
| `Schedules.ProgramCounter.AddEnd` | `pim_sw/ort_project_release/onnxruntime/core/framework/sequential_execution_plan.h:44-48` | accepts an end exactly if one interval is open and the end is not before its start; the order is kept, and a refused call changes nothing |
| `Schedules.MeetIffTouch` | `pim_sw/ort_project_release/onnxruntime/core/framework/mem_pattern_planner.h:36-66` | two schedules have a step in common exactly if some interval of one meets some interval of the other |
| `Planner.MemPatternPlanner.OverlappingTimeSchedules` | `pim_sw/ort_project_release/onnxruntime/core/framework/mem_pattern_planner.h:38-66` | the two-index walk terminates and answers exactly whether some step needs both values |
| `MemPattern.DisjointIffNoSharedByte` | `pim_sw/ort_project_release/onnxruntime/core/framework/mem_pattern.h:9-15` | blocks count as disjoint exactly if no byte belongs to both |
| `Planner.MemPatternPlanner.FindOffset` | `pim_sw/ort_project_release/onnxruntime/core/framework/mem_pattern_planner.h:143-172` | the scan over live blocks and the tail gap finds the placement that the best-fit specification defines, in either mode |
| `Planner.MemPatternPlanner.TraceAllocation` | `pim_sw/ort_project_release/onnxruntime/core/framework/mem_pattern_planner.h:133-190` | plain mode: places, appends and enters the block in the sorted live list, keeps the planner invariant, and is refused only in the wrong mode or on overflow, without a change |
| `Planner.MemPatternPlanner.TraceAllocationWithCounter` | `pim_sw/ort_project_release/onnxruntime/core/framework/mem_pattern_planner.h:68-130` | the same in counter mode, where only live blocks whose schedules meet the new one stand in the way |
| `Planner.MemPatternPlanner.TraceFree` | `pim_sw/ort_project_release/onnxruntime/core/framework/mem_pattern_planner.h:192-201` | drops the first live block of an index from the live list and nothing else |
| `Planner.MemPatternPlanner.GenerateMemPattern` | `pim_sw/ort_project_release/onnxruntime/core/framework/mem_pattern_planner.h:203-243` | fails exactly if two allocations whose schedules meet share a byte; otherwise maps each index to its last block, with the buffer size as peak |
| `PlannerSpec.PlacementAvoidsConflicts` | `pim_sw/ort_project_release/onnxruntime/core/framework/mem_pattern_planner.h:82-112` | a new block shares no byte with any live block it conflicts with |
| `PlannerSpec.AllocationKeepsValid` | `pim_sw/ort_project_release/onnxruntime/core/framework/mem_pattern_planner.h:68-190` | an allocation keeps the invariant: live list sorted, conflicting live blocks apart, buffer size equal to the largest end |
| `PlannerSpec.FreeKeepsValid` | `pim_sw/ort_project_release/onnxruntime/core/framework/mem_pattern_planner.h:192-201` | a free keeps the invariant |
| `PlannerSpec.FreeDropsFirst` | `pim_sw/ort_project_release/onnxruntime/core/framework/mem_pattern_planner.h:192-201` | a free takes exactly the first live block of the index out of the live list |
| `PlannerSpec.RefusedMeansFull` | `pim_sw/ort_project_release/onnxruntime/core/framework/mem_pattern_planner.h:143-177` | in the right mode a call is refused only if buffer and value together exceed a `size_t` |
| `PlannerSpec.BestGapIsBest` | `pim_sw/ort_project_release/onnxruntime/core/framework/mem_pattern_planner.h:148-168` | the chosen gap has least waste among all gaps that fit, the earliest on ties; no gap is chosen only if none fits |
| `PlannerRuns.RunIsValid` | `pim_sw/ort_project_release/onnxruntime/core/framework/mem_pattern_planner.h:68-201` | every state any run of calls reaches, in either mode and with refused calls, meets the invariant, so the enforce on `current` never fires |
| `PlannerRuns.PlainRunIsPacked` | `pim_sw/ort_project_release/onnxruntime/core/framework/mem_pattern_planner.h:133-201` | plain mode, any run: live blocks have strictly increasing offsets, do not overlap and lie inside the buffer |
| `CounterRuns.CounterModeIsSafeIff` | `pim_sw/ort_project_release/onnxruntime/core/framework/mem_pattern_planner.h:68-233` | counter mode: pattern generation succeeds for every choice of sizes exactly if no value is traced after a free of a value whose schedule meets its own |
| `CounterRuns.CounterRunIsClashFree` | `pim_sw/ort_project_release/onnxruntime/core/framework/mem_pattern_planner.h:68-130` | the same for given sizes: if no value that takes memory follows a free of one that its schedule meets and that takes memory, allocations whose schedules meet share no byte, so the enforces of pattern generation cannot fire |
| `CounterRuns.CounterPatternSeparates` | `pim_sw/ort_project_release/onnxruntime/core/framework/mem_pattern_planner.h:203-243` | under that condition the generated pattern keeps apart any two indices whose last values have schedules that meet, with repeated indices too |
| `CounterRuns.CounterFreeCanClash` | `pim_sw/ort_project_release/onnxruntime/core/framework/mem_pattern_planner.h:192-233` | the shortest trace that fails: allocate, free, allocate with one schedule makes generation fail for every positive size |
| `PlannerRuns.PeakIsMaxEnd` | `pim_sw/ort_project_release/onnxruntime/core/framework/mem_pattern_planner.h:176` | the peak is the largest offset plus size over all traced blocks, and is reached |
| `PlannerRuns.PeakCoversNeeds` | `pim_sw/ort_project_release/onnxruntime/core/framework/mem_pattern_planner.h:143-177` | the final peak covers the bytes needed at once at every moment of the run and every step of the schedules; in plain mode these are all live bytes |
| `PlannerRuns.PeakAtMostTraced` | `pim_sw/ort_project_release/onnxruntime/core/framework/mem_pattern_planner.h:143-177` | the peak is at most the sum of all traced sizes |
| `PlannerRuns.VacantLiesInGap` | `pim_sw/ort_project_release/onnxruntime/core/framework/mem_pattern_planner.h:82-108` | every free range of the buffer lies in one of the gaps the scan examines |
| `PlannerRuns.BestFit` | `pim_sw/ort_project_release/onnxruntime/core/framework/mem_pattern_planner.h:143-176` | the buffer grows exactly if no free range is large enough, then only by what the tail gap lacks; otherwise the block starts a gap of least waste compared with the gap of any free range |
| `ReplayRuns.ReplayIsSafeIff` | `pim_sw/ort_project_release/onnxruntime/core/framework/mem_pattern_planner.h:192-242` | plain mode: for all sizes that sum up to a `size_t`, giving each index its block of the final pattern keeps apart what is live together, exactly if any two indices that are ever live together are live together for their last traces |
| `ReplayRuns.ReplayIsOverlapFree` | `pim_sw/ort_project_release/onnxruntime/core/framework/mem_pattern_planner.h:192-242` | for given sizes, refused calls included: two values that are live at a moment and not traced after it get disjoint blocks from the final pattern, inside its peak |
| `ReplayRuns.RepeatedIndexCanOverlap` | `pim_sw/ort_project_release/onnxruntime/core/framework/mem_pattern_planner.h:236-240` | a trace of four calls whose replay overlaps, because the pattern keeps only the last block of an index |
| `TensorAllocator.TensorAllocatorWithMemPattern.constructor` | `pim_sw/ort_project_release/onnxruntime/core/framework/tensor_allocator_with_mem_pattern.h:61-66` | starts unsealed with an empty plain-mode planner per location |
| `TensorAllocator.TensorAllocatorWithMemPattern.Trace` | `pim_sw/ort_project_release/onnxruntime/core/framework/tensor_allocator_with_mem_pattern.h:107-115` | fails once sealed, for an unknown size or when the planner refuses; otherwise records the trace at its location; never touches buffers |
| `TensorAllocator.TensorAllocatorWithMemPattern.AllocatePlannedBuffersAndReportTotalSize` | `pim_sw/ort_project_release/onnxruntime/core/framework/tensor_allocator_with_mem_pattern.h:24-58` | ends at the first entry without an allocator, or that needs memory at a location with a buffer from before or for an earlier entry, and succeeds if there is none; the list of owned buffers grows by exactly one buffer of the peak size for each entry before that needs memory, in order, plus the freed one of a duplicated location; what is reported under each location name is the sum of the former |
| `TensorAllocator.TensorAllocatorWithMemPattern.FinalizePlan` | `pim_sw/ort_project_release/onnxruntime/core/framework/tensor_allocator_with_mem_pattern.h:68-73` | any call succeeds exactly if every planned location has an allocator and no weight traced before an earlier call takes memory; with all allocators it otherwise ends with a freed buffer that is still owned, which a first call never does; success seals, failure does not, and each call appends its patterns |
| `TensorAllocator.FixTwice` | `pim_sw/ort_project_release/onnxruntime/core/framework/tensor_allocator_with_mem_pattern.h:24-73` | one weight of any positive size and two calls: the second frees its buffer, and both buffers stay owned |
| `TensorAllocator.TensorAllocatorWithMemPattern.GetPreallocatedBuffer` | `pim_sw/ort_project_release/onnxruntime/core/framework/tensor_allocator_with_mem_pattern.h:75-106` | after any number of finalizations: fails before sealing; then hands out buffer address plus the offset planned before the first finalization, and an empty buffer for an empty weight without a buffer |
| `TensorAllocator.HandedOutIff` | `pim_sw/ort_project_release/onnxruntime/core/framework/tensor_allocator_with_mem_pattern.h:68-106` | something is handed out for an id exactly if the plan is sealed, the id was traced before the first finalization, and its location has no buffer or one that is not null |
| `TensorAllocator.HandedOutHasTracedSize` | `pim_sw/ort_project_release/onnxruntime/core/framework/tensor_allocator_with_mem_pattern.h:75-106` | what is handed out has the size the id was last traced with before the first finalization, lies at its planned offset in the buffer of its location, and without a buffer is empty |
| `WeightPlans.PlannedIffTraced` | `pim_sw/ort_project_release/onnxruntime/core/framework/tensor_allocator_with_mem_pattern.h:107-115` | the pattern of a location has blocks for the ids traced there and for no others |
| `WeightPlans.LastTraceGivesSize` | `pim_sw/ort_project_release/onnxruntime/core/framework/tensor_allocator_with_mem_pattern.h:107-115` | the block of an id has the size of its last trace |
| `WeightPlans.PeakIffTakesBytes` | `pim_sw/ort_project_release/onnxruntime/core/framework/tensor_allocator_with_mem_pattern.h:24-37` | memory is reserved at a location exactly if some weight traced there takes memory |
| `WeightPlans.PlannedWeightsAreDisjoint` | `pim_sw/ort_project_release/onnxruntime/core/framework/tensor_allocator_with_mem_pattern.h:75-115` | different ids traced at one location are planned disjoint blocks within the peak size of that location, also when ids are traced repeatedly |
| `TensorAllocator.HandedOutAreDisjoint` | `pim_sw/ort_project_release/onnxruntime/core/framework/tensor_allocator_with_mem_pattern.h:24-115` | end to end: the byte ranges handed out for two ids of one location do not overlap, and as soon as one is not empty both lie in one and the same buffer taken for that location |
| `WeightPlans.ZeroPeakHoldsNothing` | `pim_sw/ort_project_release/onnxruntime/core/framework/tensor_allocator_with_mem_pattern.h:34-37` | a location for which no buffer is taken holds only empty weights |
| `Utf8Util.Utf8Bytes` | `pim_sw/ort_project_release/onnxruntime/core/common/utf8_util.h:13-32` | the bit masks classify lead bytes by range: 1 to 4 bytes, or not a lead byte |
| `Utf8Util.Utf8Validate` | `pim_sw/ort_project_release/onnxruntime/core/common/utf8_util.h:51-143` | accepts exactly the byte strings that split into units, and returns the number of units |
| `Utf8Util.Utf8Len` | `pim_sw/ort_project_release/onnxruntime/core/common/utf8_util.h:35-49` | the loop counts characters by lead bytes alone, failing on a byte that cannot lead or a short tail |
| `Utf8Util.LeadCountMeansCut` | `pim_sw/ort_project_release/onnxruntime/core/common/utf8_util.h:35-49` | on every string, accepted or not: the count is n exactly if the string can be cut into n pieces, each as long as its lead byte says; without such a cut counting fails |
| `Utf8Util.AcceptedIffSplits` | `pim_sw/ort_project_release/onnxruntime/core/common/utf8_util.h:51-143` | accepted means: splits into units of the UTF8-octets grammar (section 4 of RFC 3629, widened by C0 and C1 pairs); all splits are equal and give the count |
| `Utf8Util.RfcIffNoOverlongLead` | `pim_sw/ort_project_release/onnxruntime/core/common/utf8_util.h:61-65` | the accepted strings that belong to the grammar of section 4 of RFC 3629 are exactly those without bytes C0 and C1, and the whole grammar is accepted |
| `Utf8Util.OverlongPairIsAccepted` | `pim_sw/ort_project_release/onnxruntime/core/common/utf8_util.h:61-65` | C0 80 is accepted although the grammar excludes it |
| `Utf8Util.AcceptedHasLeadCount` | `pim_sw/ort_project_release/onnxruntime/core/common/utf8_util.h:35-143` | every accepted string gets the same count from both functions |
| `Utf8Util.EncodedIsAccepted` | `pim_sw/ort_project_release/onnxruntime/core/common/utf8_util.h:51-143` | the encoding (section 3 of RFC 3629) of any sequence of scalar values is accepted, counted by its length, and decodes to the sequence |
| `Utf8Util.AcceptedRoundTrip` | `pim_sw/ort_project_release/onnxruntime/core/common/utf8_util.h:51-143` | every accepted string without C0 and C1 decodes to scalar values, none of them a surrogate or above 10FFFF, that encode to the same bytes |
| `GraphModel.FindPath` | `pim_sw/ort_project_release/onnxruntime/core/graph/graph_utils.h:229-249` | upstream search: finds the path of the pattern whenever there is one, and there is at most one |
| `GraphModel.FindOutputPath` | `pim_sw/ort_project_release/onnxruntime/core/graph/graph_utils.h:229-249` | downstream search: finds the path exactly if every edge of the pattern has a single candidate |
| `GemmMatch.MatchGemmSubgraph` | `pim_sw/ort_project_release/onnxruntime/core/optimizer/attention_fusion_helper.h:65-234` | returns the nodes of the pattern whenever it is there, in the order recorded for removal; the match is unique |
| `GemmClosure.GemmMatchIsClosed` | `pim_sw/ort_project_release/onnxruntime/core/optimizer/attention_fusion_helper.h:65-234` | the 15 nodes of a match (13 with a shared Shape) are pairwise distinct when the node behind them is not a Gemm, and only the last Reshape feeds a node outside |
| `UnidirMatch.ValidateMaskData` | `pim_sw/ort_project_release/onnxruntime/core/optimizer/attention_fusion_helper.h:272-299` | the flag loop over the square accepts exactly lower triangular and all-one masks, and tells which |
| `UnidirMatch.ValidateUnidirMask` | `pim_sw/ort_project_release/onnxruntime/core/optimizer/attention_fusion_helper.h:301-364` | accepts exactly constant non-external uint8 or float masks of shape 1x1xWxW with such data |
| `UnidirMatch.MatchUnidirMaskSubgraph` | `pim_sw/ort_project_release/onnxruntime/core/optimizer/attention_fusion_helper.h:366-532` | returns the causal-mask pattern whenever it is there; the match is unique |
| `UnidirClosure.UnidirMatchIsClosed` | `pim_sw/ort_project_release/onnxruntime/core/optimizer/attention_fusion_helper.h:366-532` | its 14 nodes (12 with shared nodes) are pairwise distinct and only the Where feeds a node outside |
| `MaskMatch.MatchInputMaskSubgraph` | `pim_sw/ort_project_release/onnxruntime/core/optimizer/attention_fusion_helper.h:594-711` | returns the input-mask pattern, or the bare Softmax behind a Where when the mask is optional, whenever it is there |
| `MaskMatch.MatchPastSubgraph` | `pim_sw/ort_project_release/onnxruntime/core/optimizer/attention_fusion_helper.h:874-983` | returns the past and present pattern around the two Concats whenever it is there |
| `PathChecks.CheckNodesInPathV` | `pim_sw/ort_project_release/onnxruntime/core/optimizer/attention_fusion_helper.h:1037-1104` | succeeds exactly if counts, permutations and shapes of the value path fit, with the head count and head size of the value shape |
| `PathChecks.CheckDistilBertReshapeShape` | `pim_sw/ort_project_release/onnxruntime/core/optimizer/attention_fusion_helper.h:985-1022` | decides whether the output shape is computed by the expected Concat, and records the Unsqueeze in front of it, also when only the constants do not fit |
| `PathChecks.PositiveCountsMeanOneHead` | `pim_sw/ort_project_release/onnxruntime/core/optimizer/attention_fusion_helper.h:1060-1063` | with a positive head count and head size the value path is accepted for one head only |
| `FusionDivisor.FusionNeedsNan` | `pim_sw/ort_project_release/onnxruntime/core/optimizer/attention_fusion_helper.h:1280-1429` | every fusion has head size -1 and a positive head count up to the hidden size, and needs the comparison with the square root of -1 to count as a match |
| `FusionDivisor.FusionIgnoresDivisor` | `pim_sw/ort_project_release/onnxruntime/core/optimizer/attention_fusion_helper.h:1115-1141` | replacing the scalar that divides the scores by any other scalar neither makes nor breaks a match of the whole pattern |
| `FusionMatch.MatchFusion` | `pim_sw/ort_project_release/onnxruntime/core/optimizer/attention_fusion_helper.h:1280-1429` | the search phase finds the attention pattern whenever it is there; the match is unique |
| `FusionRemoval.AllNodesAreDistinct` | `pim_sw/ort_project_release/onnxruntime/core/optimizer/attention_fusion_helper.h:1472-1492` | all matched nodes of the five groups, the shared mask chain included, are pairwise distinct, by operator, input slot and out-edge counts |
| `FusionClosure.RemovedExactlyOnce` | `pim_sw/ort_project_release/onnxruntime/core/optimizer/attention_fusion_helper.h:1472-1498` | whenever the removal phase is reached its list names live nodes only, and each once, so the lookup in the loop always succeeds |
| `FusionClosure.FusionIsClosed` | `pim_sw/ort_project_release/onnxruntime/core/optimizer/attention_fusion_helper.h:1472-1498` | no removed node loses a consumer outside the list, except the attention output, the Div, and the query and key path nodes, whose consumers are not counted |
| `FusionClosure.ClosedUpToOutputIff` | `pim_sw/ort_project_release/onnxruntime/core/optimizer/attention_fusion_helper.h:1472-1498` | at those nodes too, apart from the attention output, exactly if none of their out-edges beyond the pattern leaves the list |
| `FusionClosure.CountsCloseTheFusion` | `pim_sw/ort_project_release/onnxruntime/core/optimizer/attention_fusion_helper.h:1472-1498` | checkable before the removal: their out-edge counts are those of the pattern exactly if they have no other out-edges, and then the list is closed up to the attention output |
| `GptFusion.GetOrCreateMaskInt32` | `pim_sw/ort_project_release/onnxruntime/core/optimizer/attention_fusion_helper.h:1166-1216` | returns the cached int32 mask, or adds one Cast and caches its output |
| `GptFusion.OnnxGraph.RemoveNodes` | `pim_sw/ort_project_release/onnxruntime/core/optimizer/attention_fusion_helper.h:1494-1498` | the removal loop takes out exactly the listed nodes with their edges |
| `GptFusion.FuseGptAttention` | `pim_sw/ort_project_release/onnxruntime/core/optimizer/attention_fusion_helper.h:1280-1502` | fuses exactly if the pattern is there; then the graph gains the Attention node (and at most one Cast) and loses exactly the listed nodes; otherwise graph and cache are unchanged |
| `FusedNode.FusedNodeReadsProjection` | `pim_sw/ort_project_release/onnxruntime/core/optimizer/attention_fusion_helper.h:1436-1441` | the new node reads the output of the normalization, weights known to be hidden size by three times that, and a bias of three times the hidden size, in this order, and writes what the removed Reshape wrote |
| `FusedNode.FusedNodeAttributes` | `pim_sw/ort_project_release/onnxruntime/core/optimizer/attention_fusion_helper.h:1466-1467` | `num_heads` is entry 2 of the constant shapes of the value, query and key Reshapes alike; `unidirectional` is 1 exactly if the mask constant is lower triangular, and otherwise 0 |
| `FusedNode.FusedNodeReadsMaskAndPast` | `pim_sw/ort_project_release/onnxruntime/core/optimizer/attention_fusion_helper.h:1443-1457` | the optional arguments: the cached int32 mask, or the output of a new Cast of the mask to int32, or an empty name; the past that both Gathers read; the output of the present Concat |
| `FusedNode.FusedGraphKeepsTheRest` | `pim_sw/ort_project_release/onnxruntime/core/optimizer/attention_fusion_helper.h:1472-1498` | every other node is there, unchanged, exactly if it is not listed; edges stay exactly between nodes that stay |
| `FusedNode.FusedCache` | `pim_sw/ort_project_release/onnxruntime/core/optimizer/attention_fusion_helper.h:1166-1216` | the cache gains the mask the new node reads, if it was not known, and nothing else |
| `FusedNode.RemovalSize` | `pim_sw/ort_project_release/onnxruntime/core/optimizer/attention_fusion_helper.h:1472-1492` | how many nodes are removed, by shared nodes, past and mask |
| `CausalMask.CausalMaskMeans` | `pim_sw/ort_project_release/onnxruntime/core/optimizer/attention_fusion_helper.h:366-532` | meaning of a matched causal mask: the score of query i and key j stays if the mask constant is all ones or j is at most the past length plus i, and becomes -10000 otherwise |
| `InputMask.InputMaskMeans` | `pim_sw/ort_project_release/onnxruntime/core/optimizer/attention_fusion_helper.h:594-711` | meaning of a matched mask chain: each key with a zero in the mask adds -10000 to its scores, each with a one adds nothing |
| `HeadLayout.HeadsAreColumns` | `pim_sw/ort_project_release/onnxruntime/core/optimizer/attention_fusion_helper.h:1024-1164` | head n of query, key and value is the run of columns from n times the head size on, and keys are transposed for the product |
| `PastState.PastKeysMean` | `pim_sw/ort_project_release/onnxruntime/core/optimizer/attention_fusion_helper.h:874-983` | keys: those of the past, part 0, in front of the new ones |
| `PastState.PastValuesMean` | `pim_sw/ort_project_release/onnxruntime/core/optimizer/attention_fusion_helper.h:874-983` | values: those of the past, part 1, in front of the new ones |
| `PastState.PresentMeans` | `pim_sw/ort_project_release/onnxruntime/core/optimizer/attention_fusion_helper.h:874-983` | the present holds all keys and values in the layout of the past, so it can be the next past |
| `Projection.GemmMeans` | `pim_sw/ort_project_release/onnxruntime/core/optimizer/attention_fusion_helper.h:65-234` | meaning of a matched Gemm subgraph: each row of the three-dimensional input is mapped by weights and bias, and the two outer dimensions stay |
| `Projection.ProjectionMeans` | `pim_sw/ort_project_release/onnxruntime/core/optimizer/attention_fusion_helper.h:1304-1441` | query, key and value are the three thirds of one linear map, with the weights and bias the fused node is given |
| `MaskPreparation.PrepareMask` | `pim_sw/ort_project_release/onnxruntime/contrib_ops/cpu/bert/attention_helper.h:63-142` | the loops leave in each cell -10000 if the mask (full, rows of keys, ends, or ends and starts) hides the key, and -10000 more if the kernel looks back only and the key comes later |
| `AttentionMeaning.LayerMeans` | `pim_sw/ort_project_release/onnxruntime/core/optimizer/attention_fusion_helper.h:1280-1429` | what a whole matched layer computes: its output buffer holds, heads side by side in each row, the values weighted by the softmax of its scores |
| `AttentionMeaning.ScoresAgreeIff` | `pim_sw/ort_project_release/onnxruntime/contrib_ops/cpu/bert/attention_cpu_base.h:87-153` | exactly when the score of the layer is that of the kernel |
| `AttentionMeaning.FusionKeepsMeaning` | `pim_sw/ort_project_release/onnxruntime/contrib_ops/cpu/bert/attention_cpu_base.h:156-211` | the kernel computes what the matched layer computed, element by element, in every row that may see all keys, if the layer divides by the square root of the head size |
| `AttentionMeaning.PresentsAgree` | `pim_sw/ort_project_release/onnxruntime/contrib_ops/cpu/bert/attention_cpu_base.h:129-133` | the present of the layer is the state the kernel joins from its past and the new keys and values |
| `AttentionMeaning.KernelPosition` | `pim_sw/ort_project_release/onnxruntime/contrib_ops/cpu/bert/attention_cpu_base.h:197-207` | the kernel writes the heads of a row where the layer does |
| `MaskSharing.ChainRemovedIff` | `pim_sw/ort_project_release/onnxruntime/core/optimizer/attention_fusion_helper.h:555-573` | a fusion removes the whole mask chain or none of it: all of it exactly if the Mul has one consumer and is not a graph output |
| `MaskSharing.ChainIsRemovedWithTheLastLayer` | `pim_sw/ort_project_release/onnxruntime/core/optimizer/attention_fusion_helper.h:555-573` | any run of fusions of layers that share a chain feeding only them: the chain is intact before each fusion, none but the last removes any of it, and the last removes all of it, unless the Mul is a graph output |
| `MaskSharing.LayersShareOneMask` | `pim_sw/ort_project_release/onnxruntime/core/optimizer/attention_fusion_helper.h:1200-1216` | at the end of such a run every layer has an Attention node that reads one and the same int32 mask; one Cast was added in all and is still there, or none if the mask was cached |
| `RegionMap.LookupMeansHeld` | `pim_sw/ort_project_release/onnxruntime/core/framework/bfc_arena.h:281-313` | in an ordered list an address has a handle exactly if some region holds it; that region is unique and its slot gives the handle |
| `RegionMap.StoreChangesOneSlot` | `pim_sw/ort_project_release/onnxruntime/core/framework/bfc_arena.h:232-248` | storing a handle changes the mapping of the addresses of one 256-byte slot and of no others |
| `RegionMap.InsertAddsItsSlots` | `pim_sw/ort_project_release/onnxruntime/core/framework/bfc_arena.h:274-279` | inserting a region keeps every mapping outside it and adds its own slots |
| `RegionManager.AllocationRegion.constructor` | `pim_sw/ort_project_release/onnxruntime/core/framework/bfc_arena.h:201-213` | a region of a multiple of 256 bytes starts with every slot invalid |
| `RegionManager.RegionManager.UpperBound` | `pim_sw/ort_project_release/onnxruntime/core/framework/bfc_arena.h:276-305` | the bisection finds the first region whose end lies behind the address |
| `RegionManager.RegionManager.RegionFor` | `pim_sw/ort_project_release/onnxruntime/core/framework/bfc_arena.h:303-313` | finds the one region that holds the address whenever some region does |
| `RegionManager.RegionManager.GetHandle` | `pim_sw/ort_project_release/onnxruntime/core/framework/bfc_arena.h:281-283` | agrees with the map on every address, mapped or not |
| `RegionManager.RegionManager.SetHandle` | `pim_sw/ort_project_release/onnxruntime/core/framework/bfc_arena.h:285-287` | fails exactly for unmapped addresses; otherwise the map changes in one slot |
| `RegionManager.RegionManager.Erase` | `pim_sw/ort_project_release/onnxruntime/core/framework/bfc_arena.h:288` | the same, to the invalid handle |
| `RegionManager.RegionManager.AddAllocationRegion` | `pim_sw/ort_project_release/onnxruntime/core/framework/bfc_arena.h:274-279` | fails exactly for sizes that are not multiples of 256; otherwise the list stays ordered, old mappings stay and the new slots are invalid |
| `ArenaBins.Log2FloorNonZeroSlow` | `pim_sw/ort_project_release/onnxruntime/core/framework/bfc_arena.h:378-385` | the shifting loop returns the floor of the binary logarithm, and -1 for zero |
| `ArenaBins.BinBracketsSize` | `pim_sw/ort_project_release/onnxruntime/core/framework/bfc_arena.h:415-423` | a request goes to bin i or above exactly if it is at least the size of bin i (requests below 256 bytes count as 256), for all 21 bins |
| `ArenaBins.BinSizeRoundTrip` | `pim_sw/ort_project_release/onnxruntime/core/framework/bfc_arena.h:415-423` | the size of a bin maps back to the bin |
| `MaxpoolWithMask.PoolRow` | `pim_sw/ort_project_release/onnxruntime/contrib_ops/cpu/maxpool_with_mask.h:110-117` | the innermost loop extends the running maximum by the elements of a row before its first masked element |
| `MaxpoolWithMask.Channel1D` | `pim_sw/ort_project_release/onnxruntime/contrib_ops/cpu/maxpool_with_mask.h:44-62` | writes every cell of the channel, each the maximum over its window up to the first masked element, and no other cell; the first element can be masked |
| `MaxpoolWithMask.Channel2D` | `pim_sw/ort_project_release/onnxruntime/contrib_ops/cpu/maxpool_with_mask.h:94-122` | the same in two dimensions, row by row; the first element of a channel never counts as masked; all reads are in bounds |
| `MaxpoolWithMask.Channel3D` | `pim_sw/ort_project_release/onnxruntime/contrib_ops/cpu/maxpool_with_mask.h:157-192` | the same in three dimensions |
| `MaxpoolWithMask.ChannelRange` | `pim_sw/ort_project_release/onnxruntime/contrib_ops/cpu/maxpool_with_mask.h:149-156` | a range of channels is pooled and all other channels stay as they were |
| `MaxpoolWithMask.RunMaxpoolLoop` | `pim_sw/ort_project_release/onnxruntime/contrib_ops/cpu/maxpool_with_mask.h:194-202` | any ranges that cover the channels, in any order, leave every channel pooled |
| `MaskedPooling.InWindowIff` | `pim_sw/ort_project_release/onnxruntime/contrib_ops/cpu/maxpool_with_mask.h:100-107` | an element lies in the window of a cell exactly if, along every axis, it is in the input and within one kernel length from `p * stride - pad` on |
| `MaskedPooling.SeenIff` | `pim_sw/ort_project_release/onnxruntime/contrib_ops/cpu/maxpool_with_mask.h:109-117` | a cell sees the elements of its window that no zero of the mask precedes in their row; in two and three dimensions the first element is never hidden |
| `MaxpoolWithMask.PooledCellMeans` | `pim_sw/ort_project_release/onnxruntime/contrib_ops/cpu/maxpool_with_mask.h:94-122` | a pooled cell in terms of the input, mask and output buffers alone: the largest element that counts for it, or the lowest number |
| `MaskedPooling.LowestIsFinite` | `pim_sw/ort_project_release/onnxruntime/contrib_ops/cpu/maxpool_with_mask.h:108` | the lowest number is minus the largest finite single-precision number |
| `MaxpoolWithMask.OutputIsDetermined` | `pim_sw/ort_project_release/onnxruntime/contrib_ops/cpu/maxpool_with_mask.h:194-202` | so the result is the same for every split and order |
| `MaskedPooling.PooledChannelIsUnique` | `pim_sw/ort_project_release/onnxruntime/contrib_ops/cpu/maxpool_with_mask.h:94-122` | the pooling statement fixes every cell of a channel |
| `Grid.FlatFollowsOrder` | `pim_sw/ort_project_release/onnxruntime/contrib_ops/cpu/maxpool_with_mask.h:174` | the flat pool index grows with the order of the loops, so every cell is written once |
| `Grid.FlatIsOnto` | `pim_sw/ort_project_release/onnxruntime/contrib_ops/cpu/maxpool_with_mask.h:174` | every flat index belongs to a cell |
| `MaxpoolWithMask.MaskStartsAtChannel` | `pim_sw/ort_project_release/onnxruntime/contrib_ops/cpu/maxpool_with_mask.h:96` | for any numbers of channels: the mask of every channel starts at a mask channel exactly if there is one mask channel, or channels have at most one element, or the last start stays below the number of mask channels |
| `MaxpoolWithMask.MaskOfWrongChannel` | `pim_sw/ort_project_release/onnxruntime/contrib_ops/cpu/maxpool_with_mask.h:96` | two channels of two elements and two mask channels: the mask of the second starts at element 0 where its own starts at 2 |
| `MaxpoolWithMask.MaskReachIsExact` | `pim_sw/ort_project_release/onnxruntime/contrib_ops/cpu/maxpool_with_mask.h:96-112` | all masks of a length are read inside exactly if the length reaches every element that a window of some channel holds, counted from the start of the mask of that channel |
| `MaxpoolWithMask.ShortMaskIsLeft` | `pim_sw/ort_project_release/onnxruntime/contrib_ops/cpu/maxpool_with_mask.h:96-112` | a mask of one element for a channel of two is read behind its end |
| `MaxpoolWithMask.WholeMaskReaches` | `pim_sw/ort_project_release/onnxruntime/contrib_ops/cpu/maxpool_with_mask.h:96-112` | a mask with the input's elements per channel is long enough |
| `Crop.Compute` | `pim_sw/ort_project_release/onnxruntime/contrib_ops/cpu/crop.h:79-129` | succeeds exactly for inputs that pass the checks; then each output cell is the input cell shifted by the border, the output is filled exactly, and all reads are in bounds; also for crops that keep nothing |
| `Crop.OutputShapeMeans` | `pim_sw/ort_project_release/onnxruntime/contrib_ops/cpu/crop.h:94-104` | the output has the height and width of the scale, and without a scale those of the input less the borders |
| `Crop.CropIsUnique` | `pim_sw/ort_project_release/onnxruntime/contrib_ops/cpu/crop.h:113-126` | the statement about cells fixes the whole output |
| `Crop.BorderCropsAdd` | `pim_sw/ort_project_release/onnxruntime/contrib_ops/cpu/crop.h:84-126` | two border crops in a row are one crop with the borders added: it passes the checks and gives the same shape and cells |
| `Crop.AcceptedCropStaysInside` | `pim_sw/ort_project_release/onnxruntime/contrib_ops/cpu/crop.h:21-67` | an accepted crop visits only cells of the input exactly if it keeps nothing or no border or scale in use is negative |
| `Crop.NegativeBorderLeavesInput` | `pim_sw/ort_project_release/onnxruntime/contrib_ops/cpu/crop.h:43-49` | an accepted input with a negative border whose loops start before the first row |
| `Crop.AcceptedCropHasShapeIff` | `pim_sw/ort_project_release/onnxruntime/contrib_ops/cpu/crop.h:21-104` | an accepted crop has an output without negative dimensions exactly if no given scale is negative |
| `Crop.NegativeScaleHasNoShape` | `pim_sw/ort_project_release/onnxruntime/contrib_ops/cpu/crop.h:52-65` | an accepted input with a negative scale |
| `Initializers.Initializer.BlockSize` | `pim_sw/ort_project_release/onnxruntime/core/optimizer/initializer.h:662-665` | the product loop gives the number of elements that share one factor |
| `Initializers.Initializer.ScaleByAxis` | `pim_sw/ort_project_release/onnxruntime/core/optimizer/initializer.h:661-738` | in place: every element is multiplied exactly once, by the factor of its block |
| `Initializers.ScaledMeans` | `pim_sw/ort_project_release/onnxruntime/core/optimizer/initializer.h:661-738` | element by element, along any axis: the element at an index vector is multiplied by the only factor, or by the one at the leading part of the vector |
| `Initializers.ScaledOutsideMeans` | `pim_sw/ort_project_release/onnxruntime/core/optimizer/initializer.h:661-667` | for an axis outside the tensor every element has its own factor |
| `Initializers.FactorIsBroadcast` | `pim_sw/ort_project_release/onnxruntime/core/optimizer/initializer.h:667-738` | for every rank, axis and index vector the factor of an element is the one at its leading indices, as in broadcasting |
| `Initializers.OffsetSplits` | `pim_sw/ort_project_release/onnxruntime/core/optimizer/initializer.h:670-677` | row-major offsets split at any axis into a leading and a trailing offset |
| `Padding.ComputePad` | `pim_sw/ort_project_release/onnxruntime/core/providers/common.h:73-111` | fails exactly for SAME padding with dilation; head and tail add up to the total that the input and the window need, divided as the split says |
| `Padding.SplitIsEvenIff` | `pim_sw/ort_project_release/onnxruntime/core/providers/common.h:99-104` | head and tail differ by at most one, exactly unless SAME_LOWER splits a negative even total, which leaves a difference of two; the odd one is at the side the type names, and the head is not below the tail of a negative total |
| `Padding.ForcedSplitIff` | `pim_sw/ort_project_release/onnxruntime/core/providers/common.h:91-104` | forced padding is split into halves exactly if it is SAME_UPPER or the total is not negative |
| `Padding.UnevenSplit` | `pim_sw/ort_project_release/onnxruntime/core/providers/common.h:91-104` | three elements, stride three and a window of one: the total -2 is split into 0 and -2 |
| `Padding.ComputePadAndOutputShape` | `pim_sw/ort_project_release/onnxruntime/core/providers/common.h:120-130` | with SAME padding the output is the input divided by the stride, rounded up, also for negative padding; forcing symmetry adds one exactly for stride 1 and an even kernel |
| `Padding.OutputCountsWindows` | `pim_sw/ort_project_release/onnxruntime/core/providers/common.h:113-118` | the output size is the number of window positions that end inside the padded input |
| `Padding.WideWindowsNeedPadding` | `pim_sw/ort_project_release/onnxruntime/core/providers/common.h:91-92` | the needed padding is not negative once the kernel is at least as wide as the stride |
| `Padding.PadNeededIsLeast` | `pim_sw/ort_project_release/onnxruntime/core/providers/common.h:91-92` | the needed padding is the least one with an output for every started stride |

## Left out

Planner and allocator
- Schedules are stored by value; that the original keeps a pointer to a `ProgramCounter` that could change later is not captured.
- The two `TraceAllocation` overloads repeat one body; here they share the method `Allocate`.
- Allocation failure inside containers, the `int` width of list positions, and logging.
- OrtValuePatternPlanner is only declared; it is modelled as one planner per location, and `GeneratePatterns` is taken to append one pattern per location in any order, and `GetPatterns` to find the first one of a location.
- Planner.MemPatternPlanner.TraceAllocationWithCounter: the schedule must be valid when passed, as the execution plan checks before; an interval without an end would be compared with an end that is not there.
- TensorAllocator.TensorAllocatorWithMemPattern.AllocatePlannedBuffersAndReportTotalSize: reported sums are unbounded; releasing memory and the destructors of owned buffers are not modelled, the freed buffer is only named.
- TensorAllocator.TensorAllocatorWithMemPattern.Trace: an id without a planned location is not modelled; the byte size of a tensor is a parameter.

Fusion
- AttentionMeaning.FusionKeepsMeaning: exact reals; rows with keys ahead differ before the softmax as AttentionMeaning.ScoresAgreeIff says, and how little that changes after it is a matter of rounding that is not modelled. What computes query, key and value in the fused node is not visible; the kernel is modelled from these on, and its matrix products as sums.
- Projection.GemmMeans: the factors `alpha` and `beta` of a Gemm, which the fusion does not check, are one.
- MaskPreparation.PrepareMask: asks for at least one row and for ends that are not negative, because the original otherwise writes outside the buffer; memory copies are loops.
- GraphValues: spells out the uses of operators that occur in an attention layer, with constants of one number as scalars; integers of shape computations are kept without rank.
- FusionClosure.FusionIsClosed: makes no claim for consumers of the last Reshape, whose output the fused node takes over, nor for the Div, the query-key MatMul and the query and key Transpose and Reshape nodes, because the fusion does not count them; FusionClosure.ClosedUpToOutputIff says what these need.
- FusionClosure.CountsCloseTheFusion: takes the two Shape nodes that read the output of the Div by name to be joined to it by edges; operator arities are not modelled, so a list with further edges into listed nodes can be closed as well.
- MaskSharing.ChainIsRemovedWithTheLastLayer: when the Mul is a graph output the chain is never removed, as the code checks.
- FusionDivisor.FusionNeedsNan: how a comparison with the square root of a negative number ends lies in code that is not visible; it is the parameter `nanMatches` of the fusion.
- GptFusion.FuseGptAttention: returns the match in place of a flag; names of nodes, documentation strings and execution providers are not modelled, nor are outer graph scopes and control edges.
- The DistilBert mask overloads, tensor parsing and logging; constants are exact integers and reals, and an absent input reads as the empty name.

UTF-8
- Nothing of the file is left out; bytes are integers from 0 to 255.

Arena
- `SplitChunk`, `Merge`, `FreeAndMaybeCoalesce`, `Extend` and `FindChunkPtr` are only declared, so chunks and their free lists are not modelled; the chunk order is left out as an easy member.
- RegionManager.RegionManager.AddAllocationRegion: asks that the new region lies apart from the others, which the original assumes of its device allocator; wrap-around of addresses and the `int` width of slot numbers are not modelled.

Kernels
- Values are exact reals or integers: rounding, infinities, NaN, half precision and integer wrap-around are not modelled. The float buffer starts every maximum at the smallest finite number, as the code does.
- MaxpoolWithMask.Channel3D: asks for a mask with at least one channel, because the original divides by their number, and for one whose elements that are read are elements of it, because the original compares no shapes. The innermost loop the three functors repeat is one method.
- Crop.Compute: asks that a crop the checks let pass stays inside the input, because the original then reads in front of or behind it, and that the output has no negative dimension, because what becomes of one lies in code that is not visible.
- Initializers.Initializer.ScaleByAxis: integer data; asks that the other tensor is not the scaled one, that it has one factor or one per block, and that blocks are not empty, because the original divides by their size.
- Padding.ComputePadAndOutputShape: exact division stands for single-precision division.
- The element-wise operations of the initializer and its conversion from and to protocol buffers would add only easy members.
- Shape inference, thread pools and OpenMP: parallel loops are any split into ranges, run in any order.
