# Implicit-GEMM convolution kernels and reduction shape helpers, in Dafny

This project models two parts of composable_kernel (CK) and proves properties of them.

**The two `v1r3` forward-convolution kernels.** These are the padded kernel (CHWN input, CYXK weight, KHWN output) and its un-padded predecessor. Each is modelled as one block seen by one thread:

- the static checks on the tuning parameters, as validity predicates;
- the split of the 1-d block id into a 4-d tile index by packed mixed-radix decomposition. The order is `[K, Ho, Wo, N]` in the padded kernel and `[N, K, Ho, Wo]` in the un-padded one;
- the tile origins, which the padded kernel shifts back by the left pads;
- the padded input view;
- the shared-memory tile layouts and their alignment;
- the main loop nest, as imperative methods;
- the thread's origin inside the block tile;
- the two 10-d reshapes of the output used for the write-back.

The main loop nest zeroes the thread's register tile, moves two global pointers by `CPerBlock * stride0`, and adds one blockwise-GEMM contribution per step into the tile. The padded kernel loops y, x, channel block; the un-padded kernel loops channel block, y, x.

The two kernels zero the tile differently:
- the un-padded kernel zeroes the whole 4-d register tile;
- the padded kernel zeroes it through its `KPerThread x (WoPerThread * NPerThread)` C-matrix descriptor. That skips every `ho > 0` slice when `HoPerThread > 1` (first row under "## Findings").

Each kernel's `Run` models its own zeroing as written.

The blockwise tile copies and the blockwise batched GEMM are defined in headers outside this model. They become one parameter, `gemm(inOffset, weiOffset)`: the thread's contribution for a step whose copies start at those two global offsets.

**The host-side reduction helpers** in `device_reduce_common.hpp`:

- `get_2d_lengths` and `belong` are methods with loops;
- `get_invariant_dims` and the `make_tuple_*` projections are functions.

Compile-time sequences become `seq`s, and `static_assert`s become preconditions.

Files:

| file | module | contents |
|---|---|---|
| `arith.dfy` | `Arith` | divisibility, ceiling division, rounding up, gcd/lcm, max, powers of two |
| `tensor.dfy` | `Tensor` | 4-d indices and shapes, strided offsets, packed mixed-radix layout, aligned layout, products and folds |
| `thread_tile.dfy` | `ThreadTile` | the register tile as an array: zeroing, accumulation, sums of contributions, reordering |
| `implicit_gemm.dfy` | `ImplicitGemm` | what both kernels share: tensors, tuning record, checks, thread origin, choice of output fold, steps and their contributions |
| `gridwise_padded.dfy` | `GridwisePadded` | the padded kernel |
| `gridwise_unpadded.dfy` | `GridwiseUnpadded` | the un-padded kernel, and how its schedule relates to the padded one |
| `reduce_common.dfy` | `ReduceCommon` | the reduction shape helpers |

Paths in the table below are relative to the repository root.

## Model

| member | source | states |
|---|---|---|
| Arith.DivCeil | composable_kernel/include/kernel_algorithm/gridwise_convolution_implicit_gemm_v1r3_chwn_cyxk_khwn_padded.hpp:109-112 | `integer_divide_ceil(a, b)` is the least multiple count covering `a`: `r * b >= a` and `(r - 1) * b < a` |
| Arith.Lcm4 | composable_kernel/include/kernel_algorithm/gridwise_convolution_implicit_gemm_v1r3_chwn_cyxk_khwn_padded.hpp:144-147 | the padded kernel's `max_align` (lcm of the four access widths) is positive and each width divides it |
| Arith.RoundUp | composable_kernel/include/kernel_algorithm/gridwise_convolution_implicit_gemm_v1r3_chwn_cyxk_khwn_padded.hpp:149-150 | the aligned descriptor's rounded-up last length is at least the length, and a multiple of the alignment |
| Arith.MaxOfPowersOfTwoIsCommonMultiple | src/include/gridwise_convolution_implicit_gemm_v1r3_chwn_cyxk_khwn.hip.hpp:101-104 | the un-padded `max_align` is the max, not the lcm, of the four widths; when all four are powers of two the max is still a common multiple |
| Tensor.PackedMultiIndex | composable_kernel/include/kernel_algorithm/gridwise_convolution_implicit_gemm_v1r3_chwn_cyxk_khwn_padded.hpp:114-118 | `GetMultiIndexFrom1dIndex` on a packed shape: the digits recompose to the id; digits 1 to 3 are in range; the index is in bounds iff the id is below the shape's size |
| Tensor.PackedInverse | composable_kernel/include/kernel_algorithm/gridwise_convolution_implicit_gemm_v1r3_chwn_cyxk_khwn_padded.hpp:114-118 | decomposing the packed 1-d index of an in-bounds index gives that index back |
| Tensor.PackedOrder | composable_kernel/include/kernel_algorithm/gridwise_convolution_implicit_gemm_v1r3_chwn_cyxk_khwn_padded.hpp:114-118 | on in-bounds indices the packed 1-d index orders exactly as the lexicographic order, most significant dimension first |
| Tensor.AlignedLayout | composable_kernel/include/kernel_algorithm/gridwise_convolution_implicit_gemm_v1r3_chwn_cyxk_khwn_padded.hpp:149-150 | in an aligned descriptor every stride but the last is a multiple of the alignment, every in-bounds element lies inside the element space, and distinct in-bounds elements never share an offset |
| Tensor.FoldKeepsCount | composable_kernel/include/kernel_algorithm/gridwise_convolution_implicit_gemm_v1r3_chwn_cyxk_khwn_padded.hpp:374-377 | folding a dimension by intervals that divide it keeps its element count |
| ThreadTile.SetZero | src/include/gridwise_convolution_implicit_gemm_v1r3_chwn_cyxk_khwn.hip.hpp:222-223 | zeroing the whole register tile leaves every element 0 |
| ThreadTile.AddInto | composable_kernel/include/kernel_algorithm/gridwise_convolution_implicit_gemm_v1r3_chwn_cyxk_khwn_padded.hpp:299 | one blockwise GEMM adds its contribution to the register tile element by element |
| ThreadTile.AccumulatedIsSum | composable_kernel/include/kernel_algorithm/gridwise_convolution_implicit_gemm_v1r3_chwn_cyxk_khwn_padded.hpp:225-230 | after a run of `C += A^T B` steps from zero, each register element is the sum of that element of every step's contribution |
| ThreadTile.AccumulatedPermutation | src/include/gridwise_convolution_implicit_gemm_v1r3_chwn_cyxk_khwn.hip.hpp:234-258 | the accumulated tile depends only on the multiset of contributions, not on their order |
| ImplicitGemm.TileInside | composable_kernel/include/kernel_algorithm/gridwise_convolution_implicit_gemm_v1r3_chwn_cyxk_khwn_padded.hpp:105-123 | under the divisibility check the ceiling-divided block count is the exact quotient, and block `b`'s tile `[b * per, b * per + per)` lies inside the dimension |
| ImplicitGemm.TileOwner | composable_kernel/include/kernel_algorithm/gridwise_convolution_implicit_gemm_v1r3_chwn_cyxk_khwn_padded.hpp:120-123 | every coordinate lies in exactly one block tile along its dimension, the one numbered `i / per` |
| ImplicitGemm.ThreadDataBegin | composable_kernel/include/kernel_algorithm/gridwise_convolution_implicit_gemm_v1r3_chwn_cyxk_khwn_padded.hpp:347-353 | the thread origin keeps row and batch and splits the column into (wo, n) with `n < NPerBlock` and `wo * NPerBlock + n == col`; wo stays below WoPerBlock when the column is inside the block tile |
| ImplicitGemm.ThreadDataBeginUnique | src/include/gridwise_convolution_implicit_gemm_v1r3_chwn_cyxk_khwn.hip.hpp:297-300 | that split is the only (wo, n) with `n < NPerBlock` recombining to the column |
| ImplicitGemm.ChosenFoldPassesItsCheck | composable_kernel/include/kernel_algorithm/gridwise_convolution_implicit_gemm_v1r3_chwn_cyxk_khwn_padded.hpp:355-419 | under the kernel's first check, the branch taken (N split iff `GemmNPerThreadSubC <= NPerBlock`) passes its own check; `N1 * N2 == NPerBlock` in the N split; `N1 == NPerBlock == NPerThread` and `W3 * NPerBlock == GemmNPerThreadSubC` in the W split |
| ImplicitGemm.AccumulateStep | composable_kernel/include/kernel_algorithm/gridwise_convolution_implicit_gemm_v1r3_chwn_cyxk_khwn_padded.hpp:294-301 | issuing one more step adds exactly that step's contribution to the tile |
| ImplicitGemm.StepsReordered | src/include/gridwise_convolution_implicit_gemm_v1r3_chwn_cyxk_khwn.hip.hpp:234-258 | two step sequences with the same multiset of steps leave the same register tile |
| ImplicitGemm.CopyAndGemm | composable_kernel/include/kernel_algorithm/gridwise_convolution_implicit_gemm_v1r3_chwn_cyxk_khwn_padded.hpp:294-301 | copy, barrier, GEMM, barrier: the step is appended to the issued steps, and the tile becomes what it held before the first step plus the contributions of all issued steps |
| ImplicitGemm.OffsetAdvance | composable_kernel/include/kernel_algorithm/gridwise_convolution_implicit_gemm_v1r3_chwn_cyxk_khwn_padded.hpp:287-292 | after `j` advances of `CPerBlock * stride0`, a pointer started at channel 0 is the offset of channel `j * CPerBlock` |
| GridwisePadded.LdsAlignment | composable_kernel/include/kernel_algorithm/gridwise_convolution_implicit_gemm_v1r3_chwn_cyxk_khwn_padded.hpp:142-165 | with tiles aligned to the lcm `max_align`, the ad-hoc `GemmDataPerReadB` check on stride 1 always passes, and each access width divides the strides it reads along |
| GridwisePadded.BlockWorkIdBijective | composable_kernel/include/kernel_algorithm/gridwise_convolution_implicit_gemm_v1r3_chwn_cyxk_khwn_padded.hpp:114-118 | the `[K, Ho, Wo, N]` block decomposition is a bijection between ids below the grid size and in-bounds tile indices, and recomposing gives the id back |
| GridwisePadded.BlockZeroOrigin | composable_kernel/include/kernel_algorithm/gridwise_convolution_implicit_gemm_v1r3_chwn_cyxk_khwn_padded.hpp:117-123 | block 0's tile starts at the output origin |
| GridwisePadded.BlocksPartitionOutput | composable_kernel/include/kernel_algorithm/gridwise_convolution_implicit_gemm_v1r3_chwn_cyxk_khwn_padded.hpp:104-123 | for a valid configuration every output element lies in the tile of exactly one block of the grid, and no block's tile leaves the output |
| GridwisePadded.PadView | composable_kernel/include/kernel_algorithm/gridwise_convolution_implicit_gemm_v1r3_chwn_cyxk_khwn_padded.hpp:128-134 | a padded-view coordinate is padding iff its H or W lies before the left pad or at or past the left pad plus the input length; a non-padding coordinate within the padded lengths maps inside the input; every input element has a unique padded coordinate, which maps back to it |
| GridwisePadded.ScheduleAt | composable_kernel/include/kernel_algorithm/gridwise_convolution_implicit_gemm_v1r3_chwn_cyxk_khwn_padded.hpp:274-292 | the block's step list has `Y * X * (C / CPerBlock)` steps, and the step at packed position (y, x, j) is the tap (y, x) at channel `j * CPerBlock`, with input offset at `(c0, ho_begin - left pad + y, wo_begin - left pad + x, n_begin)` and weight offset at `(c0, y, x, k_begin)` |
| GridwisePadded.ScheduleIndex | composable_kernel/include/kernel_algorithm/gridwise_convolution_implicit_gemm_v1r3_chwn_cyxk_khwn_padded.hpp:274-292 | conversely, the step at any position is the tap given by that position's packed digits |
| GridwisePadded.ScheduleVisitsEachTapOnce | composable_kernel/include/kernel_algorithm/gridwise_convolution_implicit_gemm_v1r3_chwn_cyxk_khwn_padded.hpp:274-304 | every step is a tap `y < Y`, `x < X`, `c0` a multiple of CPerBlock below C; every such tap is issued; taps are issued in strictly increasing (y, x, c0) order, so none twice |
| GridwisePadded.TapLoop | composable_kernel/include/kernel_algorithm/gridwise_convolution_implicit_gemm_v1r3_chwn_cyxk_khwn_padded.hpp:278-302 | the channel loop for one tap issues that tap's steps in channel order, with both running pointers equal to the directly computed offsets, and adds their contributions to the tile |
| GridwisePadded.Run | composable_kernel/include/kernel_algorithm/gridwise_convolution_implicit_gemm_v1r3_chwn_cyxk_khwn_padded.hpp:67-456 | for a valid configuration and a block id in the grid: the issued steps are the block's schedule; each register ends as what the matrix zeroing left in it (0 if zeroed, its old value otherwise) plus the sum of the step contributions; when HoPerThread is 1 the tile is exactly that sum; the write-back base is the offset of the block origin plus the thread origin |
| GridwisePadded.FoldedCounts | composable_kernel/include/kernel_algorithm/gridwise_convolution_implicit_gemm_v1r3_chwn_cyxk_khwn_padded.hpp:363-434 | in the branch taken, the global and register 10-d views have ten dimensions; the global view holds `K * Ho * Wo * N` elements and the register view the whole thread tile |
| GridwisePadded.MatrixSetZero | composable_kernel/include/kernel_algorithm/gridwise_convolution_implicit_gemm_v1r3_chwn_cyxk_khwn_padded.hpp:239-271 | the matrix zeroing as written: through the `KPerThread x (WoPerThread * NPerThread)` C-matrix descriptor with row stride `Ho * Wo * N` per thread, it zeroes exactly the cells with `m / stride < KPerThread` and `m % stride < WoPerThread * NPerThread`, and nothing else changes |
| GridwisePadded.MatrixSetZeroCoversTileIff | composable_kernel/include/kernel_algorithm/gridwise_convolution_implicit_gemm_v1r3_chwn_cyxk_khwn_padded.hpp:239-271 | that zeroing reaches the whole register tile iff HoPerThread is 1; otherwise register (0, 1, 0, 0) keeps its old value |
| GridwisePadded.MatrixSetZeroMissesSecondRow | composable_kernel/include/kernel_algorithm/gridwise_convolution_implicit_gemm_v1r3_chwn_cyxk_khwn_padded.hpp:239-271 | for HoPerThread > 1, register (0, 1, 0, 0) is in the tile and is not zeroed |
| GridwisePadded.TileReadAddressIsConvolutionInput | composable_kernel/include/kernel_algorithm/gridwise_convolution_implicit_gemm_v1r3_chwn_cyxk_khwn_padded.hpp:125-134 | for every step of the block's schedule and every tile element, a non-padding read of the corrected copy at the step's input pointer plus the element's offset is the global offset of the input element the reference padded convolution needs. This address is what is proved, from the schedule's pointer arithmetic. The padding half holds by the corrected copy's definition: it tests the whole coordinate `(c0, ho_begin + y, wo_begin + x, n_begin) + e` in the padded view, the same coordinate the reference convolution tests |
| GridwisePadded.StepReadAddress | composable_kernel/include/kernel_algorithm/gridwise_convolution_implicit_gemm_v1r3_chwn_cyxk_khwn_padded.hpp:278-294 | the same for the step at any tap and channel block: the step pointer sits on `(c0, ho_begin - left pad + y, wo_begin - left pad + x, n_begin)`, so moving it by the element's offset lands on the convolution's input element |
| GridwisePadded.TileReadAsWrittenShiftsTwice | composable_kernel/include/kernel_algorithm/gridwise_convolution_implicit_gemm_v1r3_chwn_cyxk_khwn_padded.hpp:278-294 | as written, pointer arithmetic on the un-padded descriptor from `ho_begin - left pad` combined with the padded view from origin 0 subtracts the left pads twice |
| GridwisePadded.TileReadAsWrittenCounterexample | composable_kernel/include/kernel_algorithm/gridwise_convolution_implicit_gemm_v1r3_chwn_cyxk_khwn_padded.hpp:278-294 | a valid one-block configuration (3 x 3 input, pads 1, 3 x 3 filter) where the tile centre should read input (0, 0, 0, 0) but, as written, reads (0, -1, -1, 0), outside the input |
| GridwisePadded.PaddingExampleValid | composable_kernel/include/kernel_algorithm/gridwise_convolution_implicit_gemm_v1r3_chwn_cyxk_khwn_padded.hpp:72-107 | that configuration passes every check of the kernel |
| GridwiseUnpadded.InLdsAlignment | src/include/gridwise_convolution_implicit_gemm_v1r3_chwn_cyxk_khwn.hip.hpp:106-113 | the input tile aligned to the copy width only has strides the copy width divides; the `GemmDataPerReadB` check passes whenever that width divides the copy width |
| GridwiseUnpadded.ReadBCheckCanFail | src/include/gridwise_convolution_implicit_gemm_v1r3_chwn_cyxk_khwn.hip.hpp:110-113 | the ad-hoc stride-1 check is not implied by the others: a positive tuning has input-tile stride 1 equal to 2 with `GemmDataPerReadB` 4 |
| GridwiseUnpadded.ReadBExamplePassesOtherChecks | src/include/gridwise_convolution_implicit_gemm_v1r3_chwn_cyxk_khwn.hip.hpp:46-51 | that tuning passes the first check and its fold factors are non-zero |
| GridwiseUnpadded.WeiLdsAlignment | src/include/gridwise_convolution_implicit_gemm_v1r3_chwn_cyxk_khwn.hip.hpp:115-117 | the weight tile's row stride is at least KPerBlock and a multiple of `max(WeiBlockCopyDataPerRead_K, GemmDataPerReadA)`, so of both when they are powers of two |
| GridwiseUnpadded.BlockWorkShapeSplittable | src/include/gridwise_convolution_implicit_gemm_v1r3_chwn_cyxk_khwn.hip.hpp:77-85 | the `[N, K, Ho, Wo]` block grid has non-zero lower dimensions, so the id decomposition is defined |
| GridwiseUnpadded.BlockWorkIdBijective | src/include/gridwise_convolution_implicit_gemm_v1r3_chwn_cyxk_khwn.hip.hpp:82-90 | the `[N, K, Ho, Wo]` decomposition (N most significant) is a bijection between ids below the grid size and in-bounds tile indices |
| GridwiseUnpadded.BlocksPartitionOutput | src/include/gridwise_convolution_implicit_gemm_v1r3_chwn_cyxk_khwn.hip.hpp:72-93 | every output element lies in the tile of exactly one block, and no tile leaves the output |
| GridwiseUnpadded.WeiViewIsWeight | src/include/gridwise_convolution_implicit_gemm_v1r3_chwn_cyxk_khwn.hip.hpp:95-97 | the `(C, K)` weight view with strides `(Y * X * K, 1)` addresses the same elements as the weight tensor iff the weight's C and K strides are `Y * X * K` and 1, which packed CYXK strides satisfy |
| GridwiseUnpadded.WeiShift | src/include/gridwise_convolution_implicit_gemm_v1r3_chwn_cyxk_khwn.hip.hpp:247-249 | moving c channels and k filters from a weight element moves the offset by `c * stride0 + k * stride3` |
| GridwiseUnpadded.TapPointers | src/include/gridwise_convolution_implicit_gemm_v1r3_chwn_cyxk_khwn.hip.hpp:226-249 | by linearity of `Get1dIndex`, pointer at channel c0 plus `Get1dIndex(0, y, x, 0)` is the offset of `(c0, ho_begin + y, wo_begin + x, n_begin)` for input and `(c0, y, x, k_begin)` for weight |
| GridwiseUnpadded.RowLoop | src/include/gridwise_convolution_implicit_gemm_v1r3_chwn_cyxk_khwn.hip.hpp:241-256 | the x loop issues the taps (y, 0) to (y, X - 1) of the channel block in order and accumulates their contributions |
| GridwiseUnpadded.ChannelBlockLoop | src/include/gridwise_convolution_implicit_gemm_v1r3_chwn_cyxk_khwn.hip.hpp:238-257 | the y loop issues all taps of the channel block, row by row |
| GridwiseUnpadded.ChannelsLoop | src/include/gridwise_convolution_implicit_gemm_v1r3_chwn_cyxk_khwn.hip.hpp:226-258 | the channel-block loop, with both pointers advanced by `CPerBlock * stride0`, issues every channel block's taps in channel order and accumulates them |
| GridwiseUnpadded.Run | src/include/gridwise_convolution_implicit_gemm_v1r3_chwn_cyxk_khwn.hip.hpp:41-412 | for a valid configuration and a block id in the grid, after zeroing the whole tile the issued steps are the block's schedule, the tile is the sum of their contributions, and the write-back base is the block origin plus the thread origin |
| GridwiseUnpadded.ScheduleAt | src/include/gridwise_convolution_implicit_gemm_v1r3_chwn_cyxk_khwn.hip.hpp:234-258 | the schedule has `(C / CPerBlock) * Y * X` steps, and the step at packed position (j, y, x) is tap (y, x) at channel `j * CPerBlock`, its input offset at `(c0, ho_begin + y, wo_begin + x, n_begin)` |
| GridwiseUnpadded.ScheduleIndex | src/include/gridwise_convolution_implicit_gemm_v1r3_chwn_cyxk_khwn.hip.hpp:234-258 | the step at any position is the tap given by its packed digits |
| GridwiseUnpadded.ScheduleVisitsEachTapOnce | src/include/gridwise_convolution_implicit_gemm_v1r3_chwn_cyxk_khwn.hip.hpp:234-258 | every step is a tap; every tap is issued; taps come in strictly increasing (c0, y, x) order, so none twice |
| GridwiseUnpadded.SchedulesArePermutations | src/include/gridwise_convolution_implicit_gemm_v1r3_chwn_cyxk_khwn.hip.hpp:234-258 | without padding, the un-padded schedule (c0, y, x) is a permutation of the padded kernel's (y, x, c0) |
| GridwiseUnpadded.KernelsAgree | src/include/gridwise_convolution_implicit_gemm_v1r3_chwn_cyxk_khwn.hip.hpp:234-258 | hence, in exact arithmetic, both loop orders leave the same register tile |
| GridwiseUnpadded.OutLengths10IsFold | src/include/gridwise_convolution_implicit_gemm_v1r3_chwn_cyxk_khwn.hip.hpp:311-377 | the explicit 10-d global lengths of either branch are the fold of `[K, Ho, Wo, N]` by the branch's factors, and hold `K * Ho * Wo * N` elements when the factors divide K, Wo and N |
| GridwiseUnpadded.ThreadLengths10Count | src/include/gridwise_convolution_implicit_gemm_v1r3_chwn_cyxk_khwn.hip.hpp:334-380 | the explicit 10-d register lengths have ten dimensions and hold the whole thread tile iff `W1 * N2` (N split) or `W1 * W3 * N1` (W split) equals `WoPerThread * NPerThread` |
| GridwiseUnpadded.ThreadKhCount | src/include/gridwise_convolution_implicit_gemm_v1r3_chwn_cyxk_khwn.hip.hpp:334-335 | the K and Ho part `[KPerThread / K2, 1, K2, HoPerThread]` holds `KPerThread * HoPerThread` elements when K2 divides KPerThread |
| ReduceCommon.Get2dLengths | include/ck/tensor_operation/gpu/device/device_reduce_common.hpp:17-31 | returns the reduced product R and the total product of the first Rank lengths divided by R; for distinct reduce dims below Rank, the first is the product of the invariant dims and the two multiply back to the total |
| ReduceCommon.TotalLengthSplits | include/ck/tensor_operation/gpu/device/device_reduce_common.hpp:22-30 | for distinct reduce dims below Rank, the total product is the reduced product times the invariant product |
| ReduceCommon.LengthsProductPermutation | include/ck/tensor_operation/gpu/device/device_reduce_common.hpp:25-28 | the product of the lengths at a list of dims does not depend on the order of the dims |
| ReduceCommon.Belong | include/ck/tensor_operation/gpu/device/device_reduce_common.hpp:33-41 | the or-scan is true iff x is an element of the sequence |
| ReduceCommon.InvariantDims | include/ck/tensor_operation/gpu/device/device_reduce_common.hpp:43-58 | the result holds exactly the dims d with `start <= d < Rank` that are not reduced, in strictly increasing order |
| ReduceCommon.DimsPartition | include/ck/tensor_operation/gpu/device/device_reduce_common.hpp:43-58 | for distinct reduce dims below Rank, the reduce dims followed by the invariant dims are a permutation of 0 .. Rank - 1 |
| ReduceCommon.MakeTupleFromArrayAndIndexSeq | include/ck/tensor_operation/gpu/device/device_reduce_common.hpp:61-65 | the tuple has one element per index, and element i is the length at index `Ns[i]` |
| ReduceCommon.MakeTupleFromArray | include/ck/tensor_operation/gpu/device/device_reduce_common.hpp:67-75 | for 1 to 6 dimensions, the tuple is the first `arraySize` lengths in order |

## Left out

- Threads, blocks, barriers and shared memory are not modelled as concurrent. One block is modelled sequentially, from one thread's point of view. The block id and the thread's GEMM C origin (the result of `GetBeginOfThreadMatrixC`) are parameters.
- The bodies of the blockwise tile copies, the blockwise batched GEMM (including the inline-assembly variant) and the threadwise write-back copies live in headers outside this model. Their effect on the register tile is the parameter `gemm(inOffset, weiOffset)`. The write-back is modelled by its base offset and the lengths of the two 10-d views.
- Floating-point values and rounding are not modelled. Register elements are exact integers, so reordering the accumulation leaves the tile unchanged (`GridwiseUnpadded.KernelsAgree`), which it would not in floating point.
- The `Pad`, `Fold` and aligned-descriptor implementations live in headers outside this model. They are modelled by the semantics used here:
  - Pad shifts by the left pads and flags coordinates outside the input;
  - Fold replaces a length by its quotient followed by the intervals. Fold also asserts at compile time that the product of the intervals divides the folded length. `GridwisePadded.Valid` carries this check for the global 10-d view (`FoldDividesOutput`) and the register 10-d view (`ThreadFoldDivides`), so the preconditions of `GridwisePadded.Run`, `GridwisePadded.BlocksPartitionOutput` and `GridwisePadded.FoldedCounts` include it;
  - the aligned descriptor rounds the last length up to the alignment.
- The element-space sizes of the shared tiles (`GetElementSpace`, including the un-padded kernel's `GetElementSpace(max_align)`) are not modelled beyond `Tensor.AlignedLayout`'s bound.
- Disabled code (`#if 0` / `#else` branches, debug printing) is not modelled.
- The padded kernel's W-split register view passes `GetLengths(0)` at line 437. Its meaning depends on descriptor code outside this model, so the model uses the fold's lengths as in the N split.
- `size_t` and `index_t` overflow are not modelled: integers are unbounded.
- ReduceCommon.Get2dLengths: lengths are naturals. A negative `int` length converted to `size_t` is not modelled.
- ReduceCommon.Get2dLengths: requires a non-zero reduced product, because the division by zero that a zero product causes is undefined.
- GridwiseUnpadded.Valid: an empty output (a zero K, Ho, Wo or N) is excluded, because it leaves no blocks to model.
- GridwisePadded.Valid: a zero Ho, Wo or N is excluded, for the same reason. A zero K is allowed; it makes `GridSize` 0, so no block id meets `Run`'s `blockId < GridSize(cfg)` and the padded kernel has nothing to model.
- GridwiseUnpadded.WeiViewIsWeight: the kernel builds the `(C, K)` weight view with strides `(Y * X * K, 1)` whatever the weight descriptor's strides are. The model proves that this view matches the weight tensor only for packed CYXK strides, and does not assume it elsewhere.
- GridwiseUnpadded.ThreadLengths10Count: the kernel does not check that the register view covers the thread tile. The lemma states the exact condition instead of assuming it.

## Findings

| source | as written | input that shows it | evidently intended | confidence | as-written member | corrected member |
|---|---|---|---|---|---|---|
| composable_kernel/include/kernel_algorithm/gridwise_convolution_implicit_gemm_v1r3_chwn_cyxk_khwn_padded.hpp:239-271 | the register tile is zeroed through the `KPerThread x (WoPerThread * NPerThread)` C-matrix descriptor, whose row stride `HoPerThread * WoPerThread * NPerThread` skips every `ho > 0` slice | any tuning with `HoPerThread = 2`: register (k, ho, wo, n) = (0, 1, 0, 0) is never zeroed, and the GEMM accumulates onto its old value | zero the whole packed register tile, as the un-padded kernel does with `threadwise_4d_tensor_set_zero` | medium, not executed | GridwisePadded.MatrixSetZeroMissesSecondRow | ThreadTile.SetZero |
| composable_kernel/include/kernel_algorithm/gridwise_convolution_implicit_gemm_v1r3_chwn_cyxk_khwn_padded.hpp:278-294 | the source pointer is placed on the un-padded input at `(0, ho_begin - left pad + y, wo_begin - left pad + x, n_begin)`, and the copy then reads through the padded view from origin 0, so the left pads are subtracted twice and the padding test looks at the tile element alone | 3 x 3 input, pads 1 on each side, 3 x 3 filter, one 3 x 3 output block, tap (0, 0): the tile centre should read input (0, 0, 0, 0) but reads (0, -1, -1, 0) | resolve the whole coordinate `(c0, ho_begin + y, wo_begin + x, n_begin) + e` through the padded view once | medium, not executed | GridwisePadded.TileReadAsWrittenCounterexample | GridwisePadded.TileReadAddressIsConvolutionInput |
