/** The un-padded implicit-GEMM convolution kernel (`v1r3`, CHWN x CYXK ->
    KHWN, no padding): one block's loop nest as seen by one of its threads,
    with the block-id decomposition, the [C, K] weight view, the
    shared-memory layouts and the explicit 10-d output lengths it relies on.
    Without padding the input window of output (ho, wo) at tap (y, x) starts
    at (ho + y, wo + x), which is the padded kernel's step with zero pads, so
    the steps are shared with `GridwisePadded`. */
module GridwiseUnpadded {
  import opened Arith
  import opened Tensor
  import opened ThreadTile
  import opened Seqs
  import opened ImplicitGemm
  import Padded = GridwisePadded

  /** Every compile-time check of the kernel passes, the divisions it makes
      are by non-zero values, and the output is not empty. */
  predicate Valid(g: ConvTensors, t: Tuning) {
    Consistent(g) && FoldComputable(t) && NSplitOk(t) && WorkDivides(g, t) &&
    OutputNonEmpty(g) && K(g) > 0 && ReadBAligned(t) && FoldFactorsPositive(ChooseOutputFold(t))
  }

  // ---------------------------------------------------------------------
  // Shared-memory layouts

  /** Strides of the [CPerBlock, HoPerBlock, WoPerBlock, NPerBlock] input
      tile, aligned to the input copy width only. */
  function InBlockStrides(t: Tuning): Index4
    requires Positive(t)
  {
    AlignedStrides(Padded.InBlockShape(t), t.InCopyWidth)
  }

  /** The kernel's check that the GEMM's B reads are aligned on the input
      tile's Ho stride. */
  predicate ReadBAligned(t: Tuning)
    requires Positive(t)
  {
    Divides(t.GemmDataPerReadB, InBlockStrides(t).d1)
  }

  /** The input tile keeps the copy width's alignment on every stride but
      the last, and the B-read check passes whenever the read width divides
      the copy width. */
  lemma InLdsAlignment(t: Tuning)
    requires Positive(t)
    ensures Divides(t.InCopyWidth, InBlockStrides(t).d0) &&
            Divides(t.InCopyWidth, InBlockStrides(t).d1) &&
            Divides(t.InCopyWidth, InBlockStrides(t).d2)
    ensures Divides(t.GemmDataPerReadB, t.InCopyWidth) ==> ReadBAligned(t)
  {
    AlignedLayout(Padded.InBlockShape(t), t.InCopyWidth, Index4(0, 0, 0, 0), Index4(0, 0, 0, 0));
    if Divides(t.GemmDataPerReadB, t.InCopyWidth) {
      DividesTransitive(t.InCopyWidth, InBlockStrides(t).d1, t.GemmDataPerReadB);
    }
  }

  /** A tuning that passes the kernel's other checks (the N split, the
      fold factors) and still fails the B-read check. */
  function ReadBExample(): Tuning {
    Tuning(2, 1, 1, 1, 1, 1, 1, 1, 1, 1, 1, 1, 2, 1, 1, 1, 1, 4, 1, 1, 1)
  }

  /** The example passes the N-split check and its fold factors are
      computable and non-zero. */
  lemma ReadBExamplePassesOtherChecks()
    ensures FoldComputable(ReadBExample()) && NSplitOk(ReadBExample())
    ensures FoldFactorsPositive(ChooseOutputFold(ReadBExample()))
  {
    var f := SplitN(2, 1, 1, 1, 1, 1);
    assert ChooseOutputFold(ReadBExample()) == f;
    ProductPair(1, 1);
    ProductPair(2, 1);
    assert KIntervals(f) == [1, 1] && WIntervals(f) == [1, 1] && NIntervals(f) == [2, 1];
  }

  /** The B-read check is not implied by the other checks: with the tile
      aligned to the copy width alone, the Ho stride of the example is 2 and
      the read width 4. */
  lemma ReadBCheckCanFail()
    ensures Positive(ReadBExample())
    ensures InBlockStrides(ReadBExample()).d1 == 2 && !ReadBAligned(ReadBExample())
  {
    var t := ReadBExample();
    RoundUpExact(2, 1);
    assert AlignedShape(Padded.InBlockShape(t), 1) == Shape4(1, 1, 1, 2);
  }

  /** Row stride of the [CPerBlock, KPerBlock] weight tile, aligned to the
      larger of the weight copy width and the GEMM's A read width. */
  function WeiBlockRowStride(t: Tuning): nat
    requires Positive(t)
  {
    RoundUp(t.KPerBlock, Max(t.WeiCopyWidth, t.GemmDataPerReadA))
  }

  /** The weight tile's rows start on a multiple of the larger width; when
      both widths are powers of two both of them divide the row stride. */
  lemma WeiLdsAlignment(t: Tuning)
    requires Positive(t)
    ensures Divides(Max(t.WeiCopyWidth, t.GemmDataPerReadA), WeiBlockRowStride(t))
    ensures WeiBlockRowStride(t) >= t.KPerBlock
    ensures PowerOfTwo(t.WeiCopyWidth) && PowerOfTwo(t.GemmDataPerReadA) ==>
      Divides(t.WeiCopyWidth, WeiBlockRowStride(t)) && Divides(t.GemmDataPerReadA, WeiBlockRowStride(t))
  {
    var m := Max(t.WeiCopyWidth, t.GemmDataPerReadA);
    if PowerOfTwo(t.WeiCopyWidth) && PowerOfTwo(t.GemmDataPerReadA) {
      MaxOfTwoPowersOfTwo(t.WeiCopyWidth, t.GemmDataPerReadA);
      DividesTransitive(m, WeiBlockRowStride(t), t.WeiCopyWidth);
      DividesTransitive(m, WeiBlockRowStride(t), t.GemmDataPerReadA);
    }
  }

  /** Alignment the shared-memory element space is computed with: the
      maximum of the four access widths. */
  function MaxAlign(t: Tuning): nat {
    Max4(t.InCopyWidth, t.WeiCopyWidth, t.GemmDataPerReadA, t.GemmDataPerReadB)
  }

  /** The maximum stands in for a common multiple of the four widths when
      they are powers of two. */
  lemma MaxAlignIsCommonMultiple(t: Tuning)
    requires PowerOfTwo(t.InCopyWidth) && PowerOfTwo(t.WeiCopyWidth)
    requires PowerOfTwo(t.GemmDataPerReadA) && PowerOfTwo(t.GemmDataPerReadB)
    ensures MaxAlign(t) > 0
    ensures Divides(t.InCopyWidth, MaxAlign(t)) && Divides(t.WeiCopyWidth, MaxAlign(t)) &&
            Divides(t.GemmDataPerReadA, MaxAlign(t)) && Divides(t.GemmDataPerReadB, MaxAlign(t))
  {
    MaxOfPowersOfTwoIsCommonMultiple(t.InCopyWidth, t.WeiCopyWidth, t.GemmDataPerReadA, t.GemmDataPerReadB);
  }

  // ---------------------------------------------------------------------
  // Work partition over blocks

  /** Block counts along [N, K, Ho, Wo]: N is the most significant. */
  function BlockWorkShape(g: ConvTensors, t: Tuning): Shape4
    requires Positive(t)
  {
    Shape4(DivCeil(N(g), t.NPerBlock), DivCeil(K(g), t.KPerBlock),
           DivCeil(Ho(g), t.HoPerBlock), DivCeil(Wo(g), t.WoPerBlock))
  }

  function GridSize(g: ConvTensors, t: Tuning): nat
    requires Positive(t)
  {
    Size(BlockWorkShape(g, t))
  }

  /** The inner block counts are non-zero, so block ids can be split. */
  predicate Decomposable(g: ConvTensors, t: Tuning) {
    Positive(t) && K(g) > 0 && Ho(g) > 0 && Wo(g) > 0
  }

  lemma BlockWorkShapeSplittable(g: ConvTensors, t: Tuning)
    requires Decomposable(g, t)
    ensures Splittable(BlockWorkShape(g, t))
  {
    DivCeilPositive(K(g), t.KPerBlock);
    DivCeilPositive(Ho(g), t.HoPerBlock);
    DivCeilPositive(Wo(g), t.WoPerBlock);
  }

  /** The block's multi-index [n, k, ho, wo] in the block-work grid. */
  function BlockWorkId(g: ConvTensors, t: Tuning, blockId: nat): Index4
    requires Decomposable(g, t)
  {
    BlockWorkShapeSplittable(g, t);
    PackedMultiIndex(BlockWorkShape(g, t), blockId)
  }

  /** Origin of the block's output tile, in output order [K, Ho, Wo, N]. */
  function BlockDataBegin(g: ConvTensors, t: Tuning, blockId: nat): Index4
    requires Decomposable(g, t)
  {
    var w := BlockWorkId(g, t, blockId);
    Index4(w.d1 * t.KPerBlock, w.d2 * t.HoPerBlock, w.d3 * t.WoPerBlock, w.d0 * t.NPerBlock)
  }

  predicate InBlockTile(g: ConvTensors, t: Tuning, blockId: nat, o: Index4)
    requires Decomposable(g, t)
  {
    var b := BlockDataBegin(g, t, blockId);
    b.d0 <= o.d0 < b.d0 + t.KPerBlock && b.d1 <= o.d1 < b.d1 + t.HoPerBlock &&
    b.d2 <= o.d2 < b.d2 + t.WoPerBlock && b.d3 <= o.d3 < b.d3 + t.NPerBlock
  }

  /** Block ids below the grid size and in-bounds block multi-indices are in
      one-to-one correspondence, N most significant and Wo least. */
  lemma BlockWorkIdBijective(g: ConvTensors, t: Tuning, blockId: nat, w: Index4)
    requires Decomposable(g, t)
    ensures blockId < GridSize(g, t) <==> InBounds(BlockWorkShape(g, t), BlockWorkId(g, t, blockId))
    ensures Packed1d(BlockWorkShape(g, t), BlockWorkId(g, t, blockId)) == blockId
    ensures InBounds(BlockWorkShape(g, t), w) ==>
      0 <= Packed1d(BlockWorkShape(g, t), w) < GridSize(g, t) &&
      BlockWorkId(g, t, Packed1d(BlockWorkShape(g, t), w)) == w
  {
    if InBounds(BlockWorkShape(g, t), w) {
      PackedInverse(BlockWorkShape(g, t), w);
    }
  }

  /** The block that owns output element `o`. */
  function OwnerBlock(g: ConvTensors, t: Tuning, o: Index4): nat
    requires Valid(g, t) && InBounds(g.outLengths, o)
  {
    var w := Index4(o.d3 / t.NPerBlock, o.d0 / t.KPerBlock, o.d1 / t.HoPerBlock, o.d2 / t.WoPerBlock);
    var p := Packed1d(BlockWorkShape(g, t), w);
    if p >= 0 then p else 0
  }

  /** The blocks' output tiles partition the output: every output element lies
      in the tile of exactly one block id below the grid size, and every such
      tile lies inside the output. */
  lemma BlocksPartitionOutput(g: ConvTensors, t: Tuning, o: Index4, b: nat)
    requires Valid(g, t)
    ensures InBounds(g.outLengths, o) ==>
      OwnerBlock(g, t, o) < GridSize(g, t) && InBlockTile(g, t, OwnerBlock(g, t, o), o)
    ensures InBounds(g.outLengths, o) && b < GridSize(g, t) && InBlockTile(g, t, b, o) ==>
      b == OwnerBlock(g, t, o)
    ensures b < GridSize(g, t) && InBlockTile(g, t, b, o) ==> InBounds(g.outLengths, o)
  {
    var shape := BlockWorkShape(g, t);
    BlockWorkShapeSplittable(g, t);
    if b < GridSize(g, t) {
      var w := BlockWorkId(g, t, b);
      TileInside(N(g), t.NPerBlock, w.d0);
      TileInside(K(g), t.KPerBlock, w.d1);
      TileInside(Ho(g), t.HoPerBlock, w.d2);
      TileInside(Wo(g), t.WoPerBlock, w.d3);
    }
    if InBounds(g.outLengths, o) {
      var w := BlockWorkId(g, t, b);
      TileOwner(N(g), t.NPerBlock, o.d3, w.d0);
      TileOwner(K(g), t.KPerBlock, o.d0, w.d1);
      TileOwner(Ho(g), t.HoPerBlock, o.d1, w.d2);
      TileOwner(Wo(g), t.WoPerBlock, o.d2, w.d3);
      var owner := Index4(o.d3 / t.NPerBlock, o.d0 / t.KPerBlock, o.d1 / t.HoPerBlock, o.d2 / t.WoPerBlock);
      PackedInverse(shape, owner);
      assert BlockWorkId(g, t, OwnerBlock(g, t, o)) == owner;
    }
  }

  // ---------------------------------------------------------------------
  // The [C, K] weight view

  /** Offset of element (c, k) in the [C, K] view of the weight the weight
      copy reads through: strides (Y * X * K, 1). */
  function WeiViewOffset(g: ConvTensors, c: int, k: int): int {
    c * (Y(g) * X(g) * K(g)) + k
  }

  /** From the copy's origin on weight (c0, y, x, k0), the view's element
      (c, k) is weight (c0 + c, y, x, k0 + k) for every (c, k) exactly when
      the weight's C stride is Y * X * K and its K stride is 1, which a
      packed [C, Y, X, K] weight has. */
  lemma WeiViewIsWeight(g: ConvTensors, c0: int, y: int, x: int, k0: int)
    ensures (forall c, k :: Offset(g.weiStrides, Index4(c0, y, x, k0)) + WeiViewOffset(g, c, k) ==
                              Offset(g.weiStrides, Index4(c0 + c, y, x, k0 + k))) <==>
            g.weiStrides.d0 == Y(g) * X(g) * K(g) && g.weiStrides.d3 == 1
    ensures Consistent(g) && g.weiStrides == PackedStrides(g.weiLengths) ==>
            g.weiStrides.d0 == Y(g) * X(g) * K(g) && g.weiStrides.d3 == 1
  {
    var s, yxk := g.weiStrides, Y(g) * X(g) * K(g);
    var base := Offset(s, Index4(c0, y, x, k0));
    if s.d0 == yxk && s.d3 == 1 {
      forall c, k ensures base + WeiViewOffset(g, c, k) == Offset(s, Index4(c0 + c, y, x, k0 + k)) {
        WeiShift(s, c0, y, x, k0, c, k);
      }
    }
    if forall c, k :: base + WeiViewOffset(g, c, k) == Offset(s, Index4(c0 + c, y, x, k0 + k)) {
      assert base + WeiViewOffset(g, 1, 0) == Offset(s, Index4(c0 + 1, y, x, k0 + 0));
      WeiShift(s, c0, y, x, k0, 1, 0);
      assert base + WeiViewOffset(g, 0, 1) == Offset(s, Index4(c0 + 0, y, x, k0 + 1));
      WeiShift(s, c0, y, x, k0, 0, 1);
    }
  }

  lemma WeiShift(s: Index4, c0: int, y: int, x: int, k0: int, c: int, k: int)
    ensures Offset(s, Index4(c0 + c, y, x, k0 + k)) == Offset(s, Index4(c0, y, x, k0)) + c * s.d0 + k * s.d3
  {
    OffsetAdditive(s, Index4(c0, y, x, k0), Index4(c, 0, 0, k));
  }

  // ---------------------------------------------------------------------
  // The main loop: channel blocks outermost, then y, then x

  /** The kernel's geometry as a padded configuration with zero pads. */
  function NoPads(g: ConvTensors, t: Tuning): Padded.Config {
    Padded.Config(g, t, Padded.Pads(0, 0), Padded.Pads(0, 0))
  }

  /** The step for tap (y, x) and channel-block origin c0 of the block whose
      output tile begins at `begin`: the input copy starts at input
      coordinate (c0, ho_begin + y, wo_begin + x, n_begin), the weight copy
      at (c0, y, x, k_begin). */
  function StepAt(g: ConvTensors, t: Tuning, begin: Index4, y: nat, x: nat, c0: nat): Step {
    Padded.StepAt(NoPads(g, t), begin, y, x, c0)
  }

  function CBlocks(g: ConvTensors, t: Tuning): nat
    requires Positive(t)
  {
    C(g) / t.CPerBlock
  }

  /** The steps of the channel block at c0, filter row y, taps x < xs. */
  function RowSteps(g: ConvTensors, t: Tuning, begin: Index4, c0: nat, y: nat, xs: nat): seq<Step>
    decreases xs
  {
    if xs == 0 then [] else RowSteps(g, t, begin, c0, y, xs - 1) + [StepAt(g, t, begin, y, xs - 1, c0)]
  }

  /** The steps of the channel block at c0, filter rows y < ys. */
  function BlockSteps(g: ConvTensors, t: Tuning, begin: Index4, c0: nat, ys: nat): seq<Step>
    decreases ys
  {
    if ys == 0 then [] else BlockSteps(g, t, begin, c0, ys - 1) + RowSteps(g, t, begin, c0, ys - 1, X(g))
  }

  /** The steps of the channel blocks j < js. */
  function ChannelsSteps(g: ConvTensors, t: Tuning, begin: Index4, js: nat): seq<Step>
    decreases js
  {
    if js == 0 then [] else ChannelsSteps(g, t, begin, js - 1) + BlockSteps(g, t, begin, (js - 1) * t.CPerBlock, Y(g))
  }

  /** The steps of the block's main loop, in order: channel block
      outermost, then y, then x. */
  function Schedule(g: ConvTensors, t: Tuning, begin: Index4): seq<Step>
    requires Positive(t)
  {
    ChannelsSteps(g, t, begin, CBlocks(g, t))
  }

  /** A tap's copies start at the channel-block pointers plus the offset
      of the tap. */
  lemma TapPointers(g: ConvTensors, t: Tuning, begin: Index4, c0: nat, y: nat, x: nat, inPtr: int, weiPtr: int)
    requires inPtr == Offset(g.inStrides, Index4(c0, begin.d1, begin.d2, begin.d3))
    requires weiPtr == Offset(g.weiStrides, Index4(c0, 0, 0, begin.d0))
    ensures Step(c0, y, x, inPtr + Offset(g.inStrides, Index4(0, y, x, 0)),
                 weiPtr + Offset(g.weiStrides, Index4(0, y, x, 0))) == StepAt(g, t, begin, y, x, c0)
  {
    OffsetAdditive(g.inStrides, Index4(c0, begin.d1, begin.d2, begin.d3), Index4(0, y, x, 0));
    OffsetAdditive(g.weiStrides, Index4(c0, 0, 0, begin.d0), Index4(0, y, x, 0));
  }

  /** The x loop for filter row y of the channel block at c0: each tap's
      input copy starts at the channel-block pointer plus the offset of
      (0, y, x, 0), and the weight copy likewise. */
  method RowLoop(g: ConvTensors, t: Tuning, begin: Index4, c0: nat, y: nat,
                 inPtr: int, weiPtr: int, acc: array<int>,
                 gemm: (int, int) -> seq<int>, steps0: seq<Step>)
    returns (steps: seq<Step>)
    requires inPtr == Offset(g.inStrides, Index4(c0, begin.d1, begin.d2, begin.d3))
    requires weiPtr == Offset(g.weiStrides, Index4(c0, 0, 0, begin.d0))
    requires forall i, w :: |gemm(i, w)| == acc.Length
    requires acc[..] == TileAfter(steps0, gemm, acc.Length)
    modifies acc
    ensures steps == steps0 + RowSteps(g, t, begin, c0, y, X(g))
    ensures acc[..] == TileAfter(steps, gemm, acc.Length)
  {
    steps := steps0;
    var x := 0;
    assert steps0 + RowSteps(g, t, begin, c0, y, 0) == steps0;
    while x < X(g)
      invariant 0 <= x <= X(g)
      invariant steps == steps0 + RowSteps(g, t, begin, c0, y, x)
      invariant acc[..] == TileAfter(steps, gemm, acc.Length)
    {
      var st := Step(c0, y, x, inPtr + Offset(g.inStrides, Index4(0, y, x, 0)),
                     weiPtr + Offset(g.weiStrides, Index4(0, y, x, 0)));
      TapPointers(g, t, begin, c0, y, x, inPtr, weiPtr);
      AppendAssoc(steps0, RowSteps(g, t, begin, c0, y, x), [st]);
      AddZeros(TileAfter(steps, gemm, acc.Length));
      steps := CopyAndGemm(acc, gemm, Zeros(acc.Length), steps, st);
      AddZeros(TileAfter(steps, gemm, acc.Length));
      x := x + 1;
    }
  }

  /** The y and x loops for the channel block at c0. */
  method ChannelBlockLoop(g: ConvTensors, t: Tuning, begin: Index4, c0: nat,
                          inPtr: int, weiPtr: int, acc: array<int>,
                          gemm: (int, int) -> seq<int>, steps0: seq<Step>)
    returns (steps: seq<Step>)
    requires inPtr == Offset(g.inStrides, Index4(c0, begin.d1, begin.d2, begin.d3))
    requires weiPtr == Offset(g.weiStrides, Index4(c0, 0, 0, begin.d0))
    requires forall i, w :: |gemm(i, w)| == acc.Length
    requires acc[..] == TileAfter(steps0, gemm, acc.Length)
    modifies acc
    ensures steps == steps0 + BlockSteps(g, t, begin, c0, Y(g))
    ensures acc[..] == TileAfter(steps, gemm, acc.Length)
  {
    steps := steps0;
    var y := 0;
    assert steps0 + BlockSteps(g, t, begin, c0, 0) == steps0;
    while y < Y(g)
      invariant 0 <= y <= Y(g)
      invariant steps == steps0 + BlockSteps(g, t, begin, c0, y)
      invariant acc[..] == TileAfter(steps, gemm, acc.Length)
    {
      AppendAssoc(steps0, BlockSteps(g, t, begin, c0, y), RowSteps(g, t, begin, c0, y, X(g)));
      steps := RowLoop(g, t, begin, c0, y, inPtr, weiPtr, acc, gemm, steps);
      y := y + 1;
    }
  }

  /** The channel-block loop of `Run`: starting from the block's first
      input and weight elements, it runs one `ChannelBlockLoop` per channel
      block and moves both pointers CPerBlock channels on after each. */
  method ChannelsLoop(g: ConvTensors, t: Tuning, begin: Index4, acc: array<int>, gemm: (int, int) -> seq<int>)
    returns (steps: seq<Step>)
    requires t.CPerBlock > 0 && Divides(t.CPerBlock, C(g))
    requires forall i, w :: |gemm(i, w)| == acc.Length
    requires acc[..] == TileAfter([], gemm, acc.Length)
    modifies acc
    ensures steps == ChannelsSteps(g, t, begin, C(g) / t.CPerBlock)
    ensures acc[..] == TileAfter(steps, gemm, acc.Length)
  {
    var inPtr := Offset(g.inStrides, Index4(0, begin.d1, begin.d2, begin.d3));
    var weiPtr := Offset(g.weiStrides, Index4(0, 0, 0, begin.d0));
    var inStep, weiStep := t.CPerBlock * g.inStrides.d0, t.CPerBlock * g.weiStrides.d0;
    ghost var inBase, weiBase := inPtr, weiPtr;
    ghost var nc := C(g) / t.CPerBlock;
    DividesQuotient(t.CPerBlock, C(g));
    steps := [];
    var c0 := 0;
    ghost var j := 0;
    while c0 < C(g)
      invariant 0 <= j <= nc && c0 == j * t.CPerBlock
      invariant inPtr == inBase + j * inStep && weiPtr == weiBase + j * weiStep
      invariant steps == ChannelsSteps(g, t, begin, j)
      invariant acc[..] == TileAfter(steps, gemm, acc.Length)
    {
      assert j < nc by {
        MulLess(j, nc, t.CPerBlock);
      }
      assert inPtr == Offset(g.inStrides, Index4(c0, begin.d1, begin.d2, begin.d3)) by {
        OffsetAdvance(g.inStrides, j, t.CPerBlock, begin.d1, begin.d2, begin.d3);
      }
      assert weiPtr == Offset(g.weiStrides, Index4(c0, 0, 0, begin.d0)) by {
        OffsetAdvance(g.weiStrides, j, t.CPerBlock, 0, 0, begin.d0);
      }
      steps := ChannelBlockLoop(g, t, begin, c0, inPtr, weiPtr, acc, gemm, steps);
      assert (j + 1) * t.CPerBlock == c0 + t.CPerBlock && (j + 1) * inStep == j * inStep + inStep &&
             (j + 1) * weiStep == j * weiStep + weiStep;
      c0, j := c0 + t.CPerBlock, j + 1;
      inPtr := inPtr + inStep;
      weiPtr := weiPtr + weiStep;
    }
    assert j == nc by {
      MulLess(j, nc, t.CPerBlock);
    }
  }

  /** One block's main loop as seen by the thread whose GEMM C origin is
      `threadC`: the whole register tile is zeroed, then for each channel
      block, for y, for x, the input and weight tiles are copied and the
      thread's GEMM contribution `gemm(inOffset, weiOffset)` is added to the
      tile; the two channel-block pointers move CPerBlock channels on after
      each channel block. Returns the final register tile, the steps in the
      order they were issued, and the offset of the thread's first output
      element. */
  method Run(g: ConvTensors, t: Tuning, blockId: nat, threadC: MatrixCoord, gemm: (int, int) -> seq<int>)
    returns (out: seq<int>, steps: seq<Step>, outBase: int)
    requires Valid(g, t) && blockId < GridSize(g, t)
    requires forall i, w :: |gemm(i, w)| == ThreadTileSize(t)
    ensures steps == Schedule(g, t, BlockDataBegin(g, t, blockId))
    ensures out == TileAfter(steps, gemm, ThreadTileSize(t))
    ensures outBase == Offset(g.outStrides, Plus(BlockDataBegin(g, t, blockId), ThreadDataBegin(t, threadC)))
  {
    var begin := BlockDataBegin(g, t, blockId);
    var acc := new int[ThreadTileSize(t)];
    SetZero(acc);
    steps := ChannelsLoop(g, t, begin, acc, gemm);
    out := acc[..];
    outBase := Offset(g.outStrides, Plus(begin, ThreadDataBegin(t, threadC)));
  }

  // ---------------------------------------------------------------------
  // Visiting order

  /** The loop nest channel block, y, x as a packed [1, CBlocks, Y, X] grid. */
  function TapShape(g: ConvTensors, t: Tuning): Shape4
    requires Positive(t)
  {
    Shape4(1, CBlocks(g, t), Y(g), X(g))
  }

  /** Position of (channel block j, y, x) in the loop nest. */
  function TapPosition(g: ConvTensors, t: Tuning, j: int, y: int, x: int): int
    requires Positive(t)
  {
    Packed1d(TapShape(g, t), Index4(0, j, y, x))
  }

  lemma {:induction false} RowStepsLength(g: ConvTensors, t: Tuning, begin: Index4, c0: nat, y: nat, xs: nat)
    ensures |RowSteps(g, t, begin, c0, y, xs)| == xs
    decreases xs
  {
    if xs > 0 {
      RowStepsLength(g, t, begin, c0, y, xs - 1);
    }
  }

  lemma {:induction false} RowStepsAt(g: ConvTensors, t: Tuning, begin: Index4, c0: nat, y: nat, xs: nat, x: nat)
    requires x < xs
    ensures x < |RowSteps(g, t, begin, c0, y, xs)|
    ensures RowSteps(g, t, begin, c0, y, xs)[x] == StepAt(g, t, begin, y, x, c0)
    decreases xs
  {
    RowStepsLength(g, t, begin, c0, y, xs);
    RowStepsLength(g, t, begin, c0, y, xs - 1);
    if x < xs - 1 {
      RowStepsAt(g, t, begin, c0, y, xs - 1, x);
    }
  }

  lemma {:induction false} BlockStepsLength(g: ConvTensors, t: Tuning, begin: Index4, c0: nat, ys: nat)
    ensures |BlockSteps(g, t, begin, c0, ys)| == ys * X(g)
    decreases ys
  {
    if ys > 0 {
      BlockStepsLength(g, t, begin, c0, ys - 1);
      RowStepsLength(g, t, begin, c0, ys - 1, X(g));
      Padded.StepMul(ys - 1, X(g));
    }
  }

  lemma {:induction false} BlockStepsAt(g: ConvTensors, t: Tuning, begin: Index4, c0: nat, ys: nat, y: nat, x: nat)
    requires y < ys && x < X(g)
    ensures 0 <= y * X(g) + x < |BlockSteps(g, t, begin, c0, ys)|
    ensures BlockSteps(g, t, begin, c0, ys)[y * X(g) + x] == StepAt(g, t, begin, y, x, c0)
    decreases ys
  {
    var left, right := BlockSteps(g, t, begin, c0, ys - 1), RowSteps(g, t, begin, c0, ys - 1, X(g));
    assert BlockSteps(g, t, begin, c0, ys) == left + right;
    BlockStepsLength(g, t, begin, c0, ys - 1);
    RowStepsLength(g, t, begin, c0, ys - 1, X(g));
    if y < ys - 1 {
      BlockStepsAt(g, t, begin, c0, ys - 1, y, x);
    } else {
      RowStepsAt(g, t, begin, c0, y, X(g), x);
      assert y * X(g) == |left|;
    }
  }

  lemma {:induction false} ChannelsStepsLength(g: ConvTensors, t: Tuning, begin: Index4, js: nat)
    ensures |ChannelsSteps(g, t, begin, js)| == js * (Y(g) * X(g))
    decreases js
  {
    if js > 0 {
      ChannelsStepsLength(g, t, begin, js - 1);
      BlockStepsLength(g, t, begin, (js - 1) * t.CPerBlock, Y(g));
      Padded.StepMul(js - 1, Y(g) * X(g));
    }
  }

  lemma {:induction false} ChannelsStepsAt(g: ConvTensors, t: Tuning, begin: Index4, js: nat, j: nat, y: nat, x: nat)
    requires j < js && y < Y(g) && x < X(g)
    ensures 0 <= j * (Y(g) * X(g)) + y * X(g) + x < |ChannelsSteps(g, t, begin, js)|
    ensures ChannelsSteps(g, t, begin, js)[j * (Y(g) * X(g)) + y * X(g) + x] ==
      StepAt(g, t, begin, y, x, j * t.CPerBlock)
    decreases js
  {
    var left := ChannelsSteps(g, t, begin, js - 1);
    var right := BlockSteps(g, t, begin, (js - 1) * t.CPerBlock, Y(g));
    assert ChannelsSteps(g, t, begin, js) == left + right;
    ChannelsStepsLength(g, t, begin, js - 1);
    BlockStepsLength(g, t, begin, (js - 1) * t.CPerBlock, Y(g));
    if j < js - 1 {
      ChannelsStepsAt(g, t, begin, js - 1, j, y, x);
    } else {
      BlockStepsAt(g, t, begin, j * t.CPerBlock, Y(g), y, x);
      assert j * (Y(g) * X(g)) == |left|;
    }
  }

  /** The schedule has one step per (channel block, y, x), and the step of
      (j, y, x) sits at the row-major position of (j, y, x). */
  lemma ScheduleAt(g: ConvTensors, t: Tuning, begin: Index4, j: nat, y: nat, x: nat)
    requires Positive(t) && j < CBlocks(g, t) && y < Y(g) && x < X(g)
    ensures |Schedule(g, t, begin)| == Size(TapShape(g, t))
    ensures 0 <= TapPosition(g, t, j, y, x) < |Schedule(g, t, begin)|
    ensures Schedule(g, t, begin)[TapPosition(g, t, j, y, x)] == StepAt(g, t, begin, y, x, j * t.CPerBlock)
  {
    var nc, s := CBlocks(g, t), Schedule(g, t, begin);
    var pos := j * (Y(g) * X(g)) + y * X(g) + x;
    assert s == ChannelsSteps(g, t, begin, nc);
    ChannelsStepsLength(g, t, begin, nc);
    ChannelsStepsAt(g, t, begin, nc, j, y, x);
    assert TapPosition(g, t, j, y, x) == pos && Size(TapShape(g, t)) == nc * (Y(g) * X(g)) by {
      Padded.TapPositionRegroup(nc, Y(g), X(g), j, y, x);
    }
  }

  /** Every position of the schedule decomposes into an in-range (j, y, x),
      and holds that tap's step. */
  lemma ScheduleIndex(g: ConvTensors, t: Tuning, begin: Index4, m: nat)
    requires Positive(t) && m < |Schedule(g, t, begin)|
    ensures Splittable(TapShape(g, t)) && m < Size(TapShape(g, t))
    ensures var tap := PackedMultiIndex(TapShape(g, t), m);
      InBounds(TapShape(g, t), tap) && tap.d0 == 0 &&
      Schedule(g, t, begin)[m] == StepAt(g, t, begin, tap.d2, tap.d3, tap.d1 * t.CPerBlock)
  {
    var nc := CBlocks(g, t);
    ChannelsStepsLength(g, t, begin, nc);
    if nc == 0 || Y(g) == 0 || X(g) == 0 {
      assert false;
    }
    ScheduleAt(g, t, begin, 0, 0, 0);
    var tap := PackedMultiIndex(TapShape(g, t), m);
    ScheduleAt(g, t, begin, tap.d1, tap.d2, tap.d3);
  }

  /** The order the loop visits taps in: c0, then y, then x. */
  function ChannelKey(s: Step): Index4 {
    Index4(0, s.c0, s.y, s.x)
  }

  /** Every step of the loop is a tap of the filter and a channel block,
      every such (y, x, c0) is visited, the visits are in strictly increasing
      (c0, y, x) order, and so no tap is visited twice. */
  lemma ScheduleVisitsEachTapOnce(g: ConvTensors, t: Tuning, begin: Index4, m1: nat, m2: nat, y: nat, x: nat, c0: nat)
    requires Positive(t) && WorkDivides(g, t)
    ensures var s := Schedule(g, t, begin);
      m1 < |s| ==> (Padded.IsTap(NoPads(g, t), s[m1].y, s[m1].x, s[m1].c0) &&
                    s[m1] == StepAt(g, t, begin, s[m1].y, s[m1].x, s[m1].c0))
    ensures var s := Schedule(g, t, begin);
      Padded.IsTap(NoPads(g, t), y, x, c0) ==>
        var m := TapPosition(g, t, c0 / t.CPerBlock, y, x);
        0 <= m < |s| && s[m] == StepAt(g, t, begin, y, x, c0)
    ensures var s := Schedule(g, t, begin);
      m1 < m2 < |s| ==> LexLess(ChannelKey(s[m1]), ChannelKey(s[m2]))
    ensures var s := Schedule(g, t, begin);
      m1 < |s| && m2 < |s| && ChannelKey(s[m1]) == ChannelKey(s[m2]) ==> m1 == m2
  {
    var s, shape, p := Schedule(g, t, begin), TapShape(g, t), t.CPerBlock;
    DividesQuotient(p, C(g));
    if m1 < |s| {
      ScheduleIndex(g, t, begin, m1);
      var a := PackedMultiIndex(shape, m1);
      MulLess(a.d1, CBlocks(g, t), p);
      MulDivides(p, a.d1);
    }
    if Padded.IsTap(NoPads(g, t), y, x, c0) {
      DividesQuotient(p, c0);
      MulLess(c0 / p, CBlocks(g, t), p);
      ScheduleAt(g, t, begin, c0 / p, y, x);
    }
    if m1 < |s| && m2 < |s| {
      ScheduleIndex(g, t, begin, m1);
      ScheduleIndex(g, t, begin, m2);
      var a, b := PackedMultiIndex(shape, m1), PackedMultiIndex(shape, m2);
      PackedOrder(shape, a, b);
      PackedOrder(shape, b, a);
      MulLess(a.d1, b.d1, p);
      MulLess(b.d1, a.d1, p);
    }
  }

  // ---------------------------------------------------------------------
  // The two kernels agree

  /** The un-padded loop issues exactly the steps of the padded loop with
      zero pads, in another order: channel block outermost instead of
      innermost. */
  lemma SchedulesArePermutations(g: ConvTensors, t: Tuning, begin: Index4)
    requires Positive(t) && WorkDivides(g, t)
    ensures multiset(Schedule(g, t, begin)) == multiset(Padded.Schedule(NoPads(g, t), begin))
  {
    var cfg := NoPads(g, t);
    var u, p := Schedule(g, t, begin), Padded.Schedule(cfg, begin);
    forall i, j | 0 <= i < j < |u| ensures u[i] != u[j] {
      ScheduleVisitsEachTapOnce(g, t, begin, i, j, 0, 0, 0);
    }
    forall i, j | 0 <= i < j < |p| ensures p[i] != p[j] {
      Padded.ScheduleVisitsEachTapOnce(cfg, begin, i, j, 0, 0, 0);
    }
    forall s ensures s in u <==> s in p {
      if s in u {
        var m :| 0 <= m < |u| && u[m] == s;
        ScheduleVisitsEachTapOnce(g, t, begin, m, 0, 0, 0, 0);
        Padded.ScheduleVisitsEachTapOnce(cfg, begin, 0, 0, s.y, s.x, s.c0);
      }
      if s in p {
        var m :| 0 <= m < |p| && p[m] == s;
        Padded.ScheduleVisitsEachTapOnce(cfg, begin, m, 0, 0, 0, 0);
        ScheduleVisitsEachTapOnce(g, t, begin, 0, 0, s.y, s.x, s.c0);
      }
    }
    DistinctSameElements(u, p);
  }

  /** For the same output tile, the un-padded kernel and the padded kernel
      with zero pads leave the same register tile in every thread: the sum of
      the contributions does not depend on the order of the loops. */
  lemma KernelsAgree(g: ConvTensors, t: Tuning, begin: Index4, gemm: (int, int) -> seq<int>, n: nat)
    requires Positive(t) && WorkDivides(g, t)
    requires forall i, w :: |gemm(i, w)| == n
    ensures TileAfter(Schedule(g, t, begin), gemm, n) == TileAfter(Padded.Schedule(NoPads(g, t), begin), gemm, n)
  {
    SchedulesArePermutations(g, t, begin);
    StepsReordered(Schedule(g, t, begin), Padded.Schedule(NoPads(g, t), begin), gemm, n);
  }

  // ---------------------------------------------------------------------
  // The 10-d output views, written out

  /** The global 10-d output view as the kernel writes it out in each branch:
      K split as [K / (K1 * K2), K1, K2], Ho kept, Wo split by W1 * W2 (and
      W3), N split by N1 * N2 (or by N1 alone). */
  function OutLengths10(g: ConvTensors, f: OutputFold): seq<nat>
    requires FoldFactorsPositive(f)
  {
    match f
    case SplitN(N1, N2, W1, W2, K1, K2) =>
      var kd: nat, wd: nat, nd: nat := K1 * K2, W1 * W2, N1 * N2;
      assert kd > 0 && wd > 0 && nd > 0 by {
        ProductPair(K1, K2);
        ProductPair(W1, W2);
        ProductPair(N1, N2);
      }
      [K(g) / kd, K1, K2] + [Ho(g)] + [Wo(g) / wd, W1, W2] + [N(g) / nd, N1, N2]
    case SplitW(N1, W1, W2, W3, K1, K2) =>
      var kd: nat, wd: nat := K1 * K2, W1 * W2 * W3;
      assert kd > 0 && wd > 0 && N1 > 0 by {
        ProductPair(K1, K2);
        ProductTriple(W1, W2, W3);
        assert Product([N1]) == N1;
      }
      [K(g) / kd, K1, K2] + [Ho(g)] + [Wo(g) / wd, W1, W2, W3] + [N(g) / N1, N1]
  }

  /** The thread's 10-d register view as the kernel writes it out: the Wo
      part is [1, W1, 1] (or [1, W1, 1, W3]) and the N part [1, 1, N2] (or
      [1, N1]), whatever WoPerThread and NPerThread are. */
  function ThreadLengths10(t: Tuning): seq<nat>
    requires FoldComputable(t)
  {
    var K2 := t.GemmMPerThreadSubC;
    var k0: nat := t.KPerThread / K2;
    match ChooseOutputFold(t)
    case SplitN(_, N2, W1, _, _, _) =>
      [k0, 1, K2] + [t.HoPerThread] + [1, W1, 1] + [1, 1, N2]
    case SplitW(N1, W1, _, W3, _, _) =>
      [k0, 1, K2] + [t.HoPerThread] + [1, W1, 1, W3] + [1, N1]
  }

  /** The global view written out is the generic fold of the output by the
      chosen factors, so it has ten dimensions, and it covers the whole
      output whenever the factors divide K, Wo and N. */
  lemma OutLengths10IsFold(g: ConvTensors, f: OutputFold)
    requires FoldFactorsPositive(f)
    ensures OutLengths10(g, f) == Padded.FoldedOutLengths(g, f) && |OutLengths10(g, f)| == 10
    ensures FoldDividesOutput(g, f) ==> Product(OutLengths10(g, f)) == Size(g.outLengths)
  {
    var kf, wf, nf := FoldLengths(K(g), KIntervals(f)), FoldLengths(Wo(g), WIntervals(f)), FoldLengths(N(g), NIntervals(f));
    ProductPair(f.K1, f.K2);
    assert kf == [K(g) / (f.K1 * f.K2), f.K1, f.K2];
    if f.SplitN? {
      ProductPair(f.W1, f.W2);
      ProductPair(f.N1, f.N2);
      assert wf == [Wo(g) / (f.W1 * f.W2), f.W1, f.W2];
      assert nf == [N(g) / (f.N1 * f.N2), f.N1, f.N2];
    } else {
      ProductTriple(f.W1, f.W2, f.W3);
      assert Product([f.N1]) == f.N1;
      assert wf == [Wo(g) / (f.W1 * f.W2 * f.W3), f.W1, f.W2, f.W3];
      assert nf == [N(g) / f.N1, f.N1];
    }
    assert OutLengths10(g, f) == kf + [Ho(g)] + wf + nf;
    if FoldDividesOutput(g, f) {
      FoldKeepsCount(K(g), KIntervals(f));
      FoldKeepsCount(Wo(g), WIntervals(f));
      FoldKeepsCount(N(g), NIntervals(f));
      assert Product([Ho(g)]) == Ho(g);
      Padded.ProductOfFour(kf, [Ho(g)], wf, nf);
    }
  }

  /** The thread's register view written out has ten dimensions, and, when
      K2 divides KPerThread, it covers exactly the thread's register tile if
      and only if its Wo and N parts hold WoPerThread * NPerThread elements;
      the kernel does not check this. */
  lemma ThreadLengths10Count(t: Tuning)
    requires FoldComputable(t) && Divides(t.GemmMPerThreadSubC, t.KPerThread)
    ensures |ThreadLengths10(t)| == 10
    ensures var f := ChooseOutputFold(t);
      Product(ThreadLengths10(t)) == ThreadTileSize(t) <==>
      (match f
       case SplitN(_, N2, W1, _, _, _) => W1 * N2 == t.WoPerThread * t.NPerThread
       case SplitW(N1, W1, _, W3, _, _) => W1 * W3 * N1 == t.WoPerThread * t.NPerThread)
  {
    var f := ChooseOutputFold(t);
    var kh := [t.KPerThread / t.GemmMPerThreadSubC, 1, t.GemmMPerThreadSubC] + [t.HoPerThread];
    var wn, both;
    if f.SplitN? {
      wn, both := [1, f.W1, 1] + [1, 1, f.N2], f.W1 * f.N2;
      WoNCountSplitN(f.W1, f.N2);
    } else {
      wn, both := [1, f.W1, 1, f.W3] + [1, f.N1], f.W1 * f.W3 * f.N1;
      WoNCountSplitW(f.W1, f.W3, f.N1);
    }
    assert ThreadLengths10(t) == kh + wn;
    ProductAppend(kh, wn);
    ThreadKhCount(t.KPerThread, t.GemmMPerThreadSubC, t.HoPerThread);
    assert t.KPerThread * t.HoPerThread * t.WoPerThread * t.NPerThread ==
           (t.KPerThread * t.HoPerThread) * (t.WoPerThread * t.NPerThread);
    MulAtLeast(t.KPerThread, t.HoPerThread);
    MulLeftCancel(t.KPerThread * t.HoPerThread, both, t.WoPerThread * t.NPerThread);
  }

  /** The K and Ho parts of the register view hold KPerThread * HoPerThread
      elements. */
  lemma ThreadKhCount(kPerThread: nat, k2: nat, hoPerThread: nat)
    requires k2 > 0 && Divides(k2, kPerThread)
    ensures Product([kPerThread / k2, 1, k2] + [hoPerThread]) == kPerThread * hoPerThread
  {
    ProductAppend([kPerThread / k2, 1, k2], [hoPerThread]);
    ProductTriple(kPerThread / k2, 1, k2);
    assert Product([hoPerThread]) == hoPerThread;
    DividesQuotient(k2, kPerThread);
  }

  lemma WoNCountSplitN(w1: nat, n2: nat)
    ensures Product([1, w1, 1] + [1, 1, n2]) == w1 * n2
  {
    ProductAppend([1, w1, 1], [1, 1, n2]);
    ProductTriple(1, w1, 1);
    ProductTriple(1, 1, n2);
  }

  lemma WoNCountSplitW(w1: nat, w3: nat, n1: nat)
    ensures Product([1, w1, 1, w3] + [1, n1]) == w1 * w3 * n1
  {
    ProductAppend([1, w1, 1, w3], [1, n1]);
    ProductQuad(1, w1, 1, w3);
    ProductPair(1, n1);
  }
}
