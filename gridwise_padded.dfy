/** The padded implicit-GEMM convolution kernel (`v1r3`, CHWN x CYXK -> KHWN,
    explicit left/right padding): one block's loop nest as seen by one of its
    threads, with the block-id decomposition, the padded input view, the
    shared-memory layouts and the 10-d output reshape it relies on. */
module GridwisePadded {
  import opened Arith
  import opened Tensor
  import opened ThreadTile
  import opened ImplicitGemm

  /** Padding of the two spatial dimensions (H, W). */
  datatype Pads = Pads(h: nat, w: nat)

  /** One instantiation of the kernel. */
  datatype Config = Config(g: ConvTensors, t: Tuning, leftPads: Pads, rightPads: Pads)

  /** Element counts a thread's 10-d register view folds its tile into. */
  function ThreadKIntervals(f: OutputFold): seq<nat> { [1, f.K2] }

  function ThreadWIntervals(f: OutputFold): seq<nat> {
    match f
    case SplitN(_, _, W1, _, _, _) => [W1, 1]
    case SplitW(_, W1, _, W3, _, _) => [W1, 1, W3]
  }

  function ThreadNIntervals(f: OutputFold): seq<nat> {
    match f
    case SplitN(_, N2, _, _, _, _) => [1, N2]
    case SplitW(N1, _, _, _, _, _) => [N1]
  }

  /** The register-side folds are by non-zero factors that divide the thread
      tile's lengths. */
  predicate ThreadFoldDivides(t: Tuning, f: OutputFold) {
    Product(ThreadKIntervals(f)) > 0 && Product(ThreadWIntervals(f)) > 0 &&
    Product(ThreadNIntervals(f)) > 0 &&
    Divides(Product(ThreadKIntervals(f)), t.KPerThread) &&
    Divides(Product(ThreadWIntervals(f)), t.WoPerThread) &&
    Divides(Product(ThreadNIntervals(f)), t.NPerThread)
  }

  /** Every compile-time check of the kernel passes, and the output is not
      empty. The checks include the one `Fold` makes on each folded
      dimension (the product of the intervals divides the folded length), for
      the global 10-d view (`FoldDividesOutput`) and the register 10-d view
      (`ThreadFoldDivides`). */
  predicate Valid(cfg: Config) {
    var g, t := cfg.g, cfg.t;
    Consistent(g) && FoldComputable(t) && NSplitOk(t) && WorkDivides(g, t) && OutputNonEmpty(g) &&
    FoldFactorsPositive(ChooseOutputFold(t)) &&
    FoldDividesOutput(g, ChooseOutputFold(t)) &&
    ThreadFoldDivides(t, ChooseOutputFold(t))
  }

  // ---------------------------------------------------------------------
  // Shared-memory layouts

  /** Alignment of both shared-memory tiles: the least common multiple of
      the four access widths. */
  function MaxAlign(t: Tuning): nat
    requires Positive(t)
  {
    Lcm4(t.InCopyWidth, t.WeiCopyWidth, t.GemmDataPerReadA, t.GemmDataPerReadB)
  }

  function InBlockShape(t: Tuning): Shape4 {
    Shape4(t.CPerBlock, t.HoPerBlock, t.WoPerBlock, t.NPerBlock)
  }

  /** Strides of the [CPerBlock, HoPerBlock, WoPerBlock, NPerBlock] input tile. */
  function InBlockStrides(t: Tuning): Index4
    requires Positive(t)
  {
    AlignedStrides(InBlockShape(t), MaxAlign(t))
  }

  /** Row stride of the [CPerBlock, KPerBlock] weight tile. */
  function WeiBlockRowStride(t: Tuning): nat
    requires Positive(t)
  {
    RoundUp(t.KPerBlock, MaxAlign(t))
  }

  /** With the least common multiple as alignment, every access width divides
      the strides it is used with, so the input tile's `GemmDataPerReadB`
      check can never fail in this kernel. */
  lemma LdsAlignment(t: Tuning)
    requires Positive(t)
    ensures Divides(t.GemmDataPerReadB, InBlockStrides(t).d1)
    ensures Divides(t.GemmDataPerReadB, InBlockStrides(t).d0)
    ensures Divides(t.InCopyWidth, InBlockStrides(t).d0) &&
            Divides(t.InCopyWidth, InBlockStrides(t).d1) &&
            Divides(t.InCopyWidth, InBlockStrides(t).d2)
    ensures Divides(t.GemmDataPerReadA, WeiBlockRowStride(t)) &&
            Divides(t.WeiCopyWidth, WeiBlockRowStride(t))
  {
    var a := MaxAlign(t);
    var s := InBlockStrides(t);
    AlignedLayout(InBlockShape(t), a, Index4(0, 0, 0, 0), Index4(0, 0, 0, 0));
    DividesTransitive(a, s.d1, t.GemmDataPerReadB);
    DividesTransitive(a, s.d0, t.GemmDataPerReadB);
    DividesTransitive(a, s.d0, t.InCopyWidth);
    DividesTransitive(a, s.d1, t.InCopyWidth);
    DividesTransitive(a, s.d2, t.InCopyWidth);
    DividesTransitive(a, WeiBlockRowStride(t), t.GemmDataPerReadA);
    DividesTransitive(a, WeiBlockRowStride(t), t.WeiCopyWidth);
  }

  // ---------------------------------------------------------------------
  // Work partition over blocks

  /** Block counts along [K, Ho, Wo, N]. */
  function BlockWorkShape(cfg: Config): Shape4
    requires Positive(cfg.t)
  {
    var g, t := cfg.g, cfg.t;
    Shape4(DivCeil(K(g), t.KPerBlock), DivCeil(Ho(g), t.HoPerBlock),
           DivCeil(Wo(g), t.WoPerBlock), DivCeil(N(g), t.NPerBlock))
  }

  function GridSize(cfg: Config): nat
    requires Positive(cfg.t)
  {
    Size(BlockWorkShape(cfg))
  }

  /** The block's multi-index in the packed [K, Ho, Wo, N] block-work grid. */
  function BlockWorkId(cfg: Config, blockId: nat): Index4
    requires Positive(cfg.t) && OutputNonEmpty(cfg.g)
  {
    PackedMultiIndex(BlockWorkShape(cfg), blockId)
  }

  /** Origin of the block's output tile, in output order [K, Ho, Wo, N]. */
  function BlockDataBegin(cfg: Config, blockId: nat): Index4
    requires Positive(cfg.t) && OutputNonEmpty(cfg.g)
  {
    var w, t := BlockWorkId(cfg, blockId), cfg.t;
    Index4(w.d0 * t.KPerBlock, w.d1 * t.HoPerBlock, w.d2 * t.WoPerBlock, w.d3 * t.NPerBlock)
  }

  predicate InBlockTile(cfg: Config, blockId: nat, o: Index4)
    requires Positive(cfg.t) && OutputNonEmpty(cfg.g)
  {
    var b, t := BlockDataBegin(cfg, blockId), cfg.t;
    b.d0 <= o.d0 < b.d0 + t.KPerBlock && b.d1 <= o.d1 < b.d1 + t.HoPerBlock &&
    b.d2 <= o.d2 < b.d2 + t.WoPerBlock && b.d3 <= o.d3 < b.d3 + t.NPerBlock
  }

  /** Block ids below the grid size and in-bounds block multi-indices are in
      one-to-one correspondence, K most significant and N least. */
  lemma BlockWorkIdBijective(cfg: Config, blockId: nat, w: Index4)
    requires Positive(cfg.t) && OutputNonEmpty(cfg.g)
    ensures blockId < GridSize(cfg) <==> InBounds(BlockWorkShape(cfg), BlockWorkId(cfg, blockId))
    ensures Packed1d(BlockWorkShape(cfg), BlockWorkId(cfg, blockId)) == blockId
    ensures InBounds(BlockWorkShape(cfg), w) ==>
      0 <= Packed1d(BlockWorkShape(cfg), w) < GridSize(cfg) &&
      BlockWorkId(cfg, Packed1d(BlockWorkShape(cfg), w)) == w
  {
    if InBounds(BlockWorkShape(cfg), w) {
      PackedInverse(BlockWorkShape(cfg), w);
    }
  }

  /** Block 0's tile begins at the origin of the output. */
  lemma BlockZeroOrigin(cfg: Config)
    requires Positive(cfg.t) && OutputNonEmpty(cfg.g)
    ensures BlockDataBegin(cfg, 0) == Index4(0, 0, 0, 0)
  {
    var g, t := cfg.g, cfg.t;
    DivCeilPositive(Ho(g), t.HoPerBlock);
    DivCeilPositive(Wo(g), t.WoPerBlock);
    DivCeilPositive(N(g), t.NPerBlock);
    PackedZero(BlockWorkShape(cfg));
    assert BlockWorkId(cfg, 0) == Index4(0, 0, 0, 0);
  }

  /** The block that owns output element `o`. */
  function OwnerBlock(cfg: Config, o: Index4): nat
    requires Valid(cfg) && InBounds(cfg.g.outLengths, o)
  {
    var t := cfg.t;
    var w := Index4(o.d0 / t.KPerBlock, o.d1 / t.HoPerBlock, o.d2 / t.WoPerBlock, o.d3 / t.NPerBlock);
    var p := Packed1d(BlockWorkShape(cfg), w);
    if p >= 0 then p else 0
  }

  /** The blocks' output tiles partition the output: every output element lies
      in the tile of exactly one block id below the grid size, and every such
      tile lies inside the output. */
  lemma BlocksPartitionOutput(cfg: Config, o: Index4, b: nat)
    requires Valid(cfg)
    ensures InBounds(cfg.g.outLengths, o) ==>
      OwnerBlock(cfg, o) < GridSize(cfg) && InBlockTile(cfg, OwnerBlock(cfg, o), o)
    ensures InBounds(cfg.g.outLengths, o) && b < GridSize(cfg) && InBlockTile(cfg, b, o) ==>
      b == OwnerBlock(cfg, o)
    ensures b < GridSize(cfg) && InBlockTile(cfg, b, o) ==> InBounds(cfg.g.outLengths, o)
  {
    var g, t := cfg.g, cfg.t;
    var shape := BlockWorkShape(cfg);
    if b < GridSize(cfg) {
      var w := BlockWorkId(cfg, b);
      TileInside(K(g), t.KPerBlock, w.d0);
      TileInside(Ho(g), t.HoPerBlock, w.d1);
      TileInside(Wo(g), t.WoPerBlock, w.d2);
      TileInside(N(g), t.NPerBlock, w.d3);
    }
    if InBounds(g.outLengths, o) {
      var w := BlockWorkId(cfg, b);
      TileOwner(K(g), t.KPerBlock, o.d0, w.d0);
      TileOwner(Ho(g), t.HoPerBlock, o.d1, w.d1);
      TileOwner(Wo(g), t.WoPerBlock, o.d2, w.d2);
      TileOwner(N(g), t.NPerBlock, o.d3, w.d3);
      var owner := Index4(o.d0 / t.KPerBlock, o.d1 / t.HoPerBlock, o.d2 / t.WoPerBlock, o.d3 / t.NPerBlock);
      PackedInverse(shape, owner);
      assert BlockWorkId(cfg, OwnerBlock(cfg, o)) == owner;
    }
  }

  // ---------------------------------------------------------------------
  // The padded input view

  /** Lengths of the padded view [C, Hi + pads, Wi + pads, N]. */
  function PaddedLengths(cfg: Config): Shape4 {
    var g := cfg.g;
    Shape4(C(g), Hi(g) + cfg.leftPads.h + cfg.rightPads.h,
           Wi(g) + cfg.leftPads.w + cfg.rightPads.w, N(g))
  }

  /** A coordinate of the padded view resolves to an input coordinate or to
      the padding margin, which reads as zero. */
  datatype PadLookup = InPadding | Lower(i: Index4)

  /** Resolves a padded-view coordinate: C and N pass through, H and W are
      shifted back by the left pads and flagged when they leave the input. */
  function PadLower(cfg: Config, u: Index4): PadLookup {
    var h, w := u.d1 - cfg.leftPads.h, u.d2 - cfg.leftPads.w;
    if 0 <= h < Hi(cfg.g) && 0 <= w < Wi(cfg.g) then Lower(Index4(u.d0, h, w, u.d3))
    else InPadding
  }

  /** Where an input coordinate sits in the padded view. */
  function PadUpper(cfg: Config, i: Index4): Index4 {
    Index4(i.d0, i.d1 + cfg.leftPads.h, i.d2 + cfg.leftPads.w, i.d3)
  }

  /** A coordinate is in the padding exactly when its H or W lies before the
      left pad or at or past the left pad plus the input length; the input
      coordinates and the non-padding coordinates of the view correspond one
      to one. */
  lemma PadView(cfg: Config, u: Index4, i: Index4)
    requires Consistent(cfg.g)
    ensures PadLower(cfg, u).InPadding? <==>
      (u.d1 < cfg.leftPads.h || u.d1 >= cfg.leftPads.h + Hi(cfg.g) ||
       u.d2 < cfg.leftPads.w || u.d2 >= cfg.leftPads.w + Wi(cfg.g))
    ensures InBounds(PaddedLengths(cfg), u) && PadLower(cfg, u).Lower? ==>
      InBounds(cfg.g.inLengths, PadLower(cfg, u).i)
    ensures InBounds(cfg.g.inLengths, i) ==>
      InBounds(PaddedLengths(cfg), PadUpper(cfg, i)) && PadLower(cfg, PadUpper(cfg, i)) == Lower(i)
    ensures PadLower(cfg, u) == Lower(i) ==> u == PadUpper(cfg, i)
  {
  }

  // ---------------------------------------------------------------------
  // The main loop

  /** Number of channel blocks. */
  function CBlocks(cfg: Config): nat
    requires Positive(cfg.t)
  {
    C(cfg.g) / cfg.t.CPerBlock
  }

  /** The loop nest y, x, channel block as a packed [1, Y, X, CBlocks] grid. */
  function TapShape(cfg: Config): Shape4
    requires Positive(cfg.t)
  {
    Shape4(1, Y(cfg.g), X(cfg.g), CBlocks(cfg))
  }

  /** Position of (y, x, channel block j) in the loop nest. */
  function TapPosition(cfg: Config, y: int, x: int, j: int): int
    requires Positive(cfg.t)
  {
    Packed1d(TapShape(cfg), Index4(0, y, x, j))
  }

  /** The step for tap (y, x) and channel-block origin c0 of the block whose
      output tile begins at `begin`: the input copy starts at input
      coordinate (c0, ho_begin - left pad + y, wo_begin - left pad + x,
      n_begin), the weight copy at (c0, y, x, k_begin). */
  function StepAt(cfg: Config, begin: Index4, y: nat, x: nat, c0: nat): Step {
    var g := cfg.g;
    Step(c0, y, x,
         Offset(g.inStrides, Index4(c0, begin.d1 - cfg.leftPads.h + y, begin.d2 - cfg.leftPads.w + x, begin.d3)),
         Offset(g.weiStrides, Index4(c0, y, x, begin.d0)))
  }

  /** The steps of tap (y, x): one per channel block, c0 increasing. */
  function TapSteps(cfg: Config, begin: Index4, y: nat, x: nat): seq<Step>
    requires Positive(cfg.t)
  {
    seq(CBlocks(cfg), j requires 0 <= j < CBlocks(cfg) => StepAt(cfg, begin, y, x, j * cfg.t.CPerBlock))
  }

  /** The steps of filter row y for the taps x < xs. */
  function RowSteps(cfg: Config, begin: Index4, y: nat, xs: nat): seq<Step>
    requires Positive(cfg.t)
    decreases xs
  {
    if xs == 0 then [] else RowSteps(cfg, begin, y, xs - 1) + TapSteps(cfg, begin, y, xs - 1)
  }

  /** The steps of the filter rows y < ys. */
  function RowsSteps(cfg: Config, begin: Index4, ys: nat): seq<Step>
    requires Positive(cfg.t)
    decreases ys
  {
    if ys == 0 then [] else RowsSteps(cfg, begin, ys - 1) + RowSteps(cfg, begin, ys - 1, X(cfg.g))
  }

  /** The steps issued before tap (y, x). */
  function StepsBefore(cfg: Config, begin: Index4, y: nat, x: nat): seq<Step>
    requires Positive(cfg.t)
  {
    RowsSteps(cfg, begin, y) + RowSteps(cfg, begin, y, x)
  }

  lemma StepsBeforeNext(cfg: Config, begin: Index4, y: nat, x: nat)
    requires Positive(cfg.t)
    ensures StepsBefore(cfg, begin, y, x) + TapSteps(cfg, begin, y, x) == StepsBefore(cfg, begin, y, x + 1)
    ensures StepsBefore(cfg, begin, y, X(cfg.g)) == StepsBefore(cfg, begin, y + 1, 0)
  {
  }

  /** The steps of the block's main loop, in order: y outermost, then x,
      then the channel blocks. */
  function Schedule(cfg: Config, begin: Index4): seq<Step>
    requires Positive(cfg.t)
  {
    RowsSteps(cfg, begin, Y(cfg.g))
  }

  lemma {:induction false} RowStepsLength(cfg: Config, begin: Index4, y: nat, xs: nat)
    requires Positive(cfg.t)
    ensures |RowSteps(cfg, begin, y, xs)| == xs * CBlocks(cfg)
    decreases xs
  {
    if xs > 0 {
      RowStepsLength(cfg, begin, y, xs - 1);
      StepMul(xs - 1, CBlocks(cfg));
    }
  }

  lemma {:induction false} RowsStepsLength(cfg: Config, begin: Index4, ys: nat)
    requires Positive(cfg.t)
    ensures |RowsSteps(cfg, begin, ys)| == ys * (X(cfg.g) * CBlocks(cfg))
    decreases ys
  {
    if ys > 0 {
      RowsStepsLength(cfg, begin, ys - 1);
      RowStepsLength(cfg, begin, ys - 1, X(cfg.g));
      StepMul(ys - 1, X(cfg.g) * CBlocks(cfg));
    }
  }

  /** `(k + 1) * n == k * n + n`. */
  lemma StepMul(k: nat, n: nat)
    ensures (k + 1) * n == k * n + n
  {
  }

  /** A digit `j < n` after `x < xs` full blocks of `n` stays below `xs * n`. */
  lemma BlockIndexBound(x: nat, xs: nat, n: nat, j: nat)
    requires x < xs && j < n
    ensures x * n + j < xs * n
  {
    DigitLess(x, j, xs, 0, n);
  }

  lemma {:induction false} RowStepsAt(cfg: Config, begin: Index4, y: nat, xs: nat, x: nat, j: nat)
    requires Positive(cfg.t) && x < xs && j < CBlocks(cfg)
    ensures x * CBlocks(cfg) + j < |RowSteps(cfg, begin, y, xs)|
    ensures RowSteps(cfg, begin, y, xs)[x * CBlocks(cfg) + j] == StepAt(cfg, begin, y, x, j * cfg.t.CPerBlock)
    decreases xs
  {
    var nc := CBlocks(cfg);
    RowStepsLength(cfg, begin, y, xs);
    RowStepsLength(cfg, begin, y, xs - 1);
    BlockIndexBound(x, xs, nc, j);
    if x < xs - 1 {
      RowStepsAt(cfg, begin, y, xs - 1, x, j);
    }
  }

  lemma {:induction false} RowsStepsAt(cfg: Config, begin: Index4, ys: nat, y: nat, x: nat, j: nat)
    requires Positive(cfg.t) && y < ys && x < X(cfg.g) && j < CBlocks(cfg)
    ensures y * (X(cfg.g) * CBlocks(cfg)) + x * CBlocks(cfg) + j < |RowsSteps(cfg, begin, ys)|
    ensures RowsSteps(cfg, begin, ys)[y * (X(cfg.g) * CBlocks(cfg)) + x * CBlocks(cfg) + j] ==
      StepAt(cfg, begin, y, x, j * cfg.t.CPerBlock)
    decreases ys
  {
    var row := X(cfg.g) * CBlocks(cfg);
    RowsStepsLength(cfg, begin, ys);
    RowsStepsLength(cfg, begin, ys - 1);
    RowStepsAt(cfg, begin, y, X(cfg.g), x, j);
    BlockIndexBound(x, X(cfg.g), CBlocks(cfg), j);
    BlockIndexBound(y, ys, row, x * CBlocks(cfg) + j);
    if y < ys - 1 {
      RowsStepsAt(cfg, begin, ys - 1, y, x, j);
    }
  }

  /** Row-major position in a [1, Y, X, n] grid, regrouped. */
  lemma TapPositionRegroup(Y: nat, X: nat, n: nat, y: int, x: int, j: int)
    ensures ((0 * Y + y) * X + x) * n + j == y * (X * n) + x * n + j
    ensures 1 * Y * X * n == Y * (X * n)
  {
    assert (y * X + x) * n == y * X * n + x * n;
  }

  /** The schedule has one step per (y, x, channel block), and the step of
      (y, x, j) sits at the row-major position of (y, x, j). */
  lemma ScheduleAt(cfg: Config, begin: Index4, y: nat, x: nat, j: nat)
    requires Positive(cfg.t) && y < Y(cfg.g) && x < X(cfg.g) && j < CBlocks(cfg)
    ensures |Schedule(cfg, begin)| == Size(TapShape(cfg))
    ensures 0 <= TapPosition(cfg, y, x, j) < |Schedule(cfg, begin)|
    ensures Schedule(cfg, begin)[TapPosition(cfg, y, x, j)] == StepAt(cfg, begin, y, x, j * cfg.t.CPerBlock)
  {
    var nc, s := CBlocks(cfg), Schedule(cfg, begin);
    var pos := y * (X(cfg.g) * nc) + x * nc + j;
    assert s == RowsSteps(cfg, begin, Y(cfg.g));
    RowsStepsLength(cfg, begin, Y(cfg.g));
    RowsStepsAt(cfg, begin, Y(cfg.g), y, x, j);
    assert TapPosition(cfg, y, x, j) == pos && Size(TapShape(cfg)) == Y(cfg.g) * (X(cfg.g) * nc) by {
      TapPositionRegroup(Y(cfg.g), X(cfg.g), nc, y, x, j);
    }
  }

  /** Every position of the schedule decomposes into an in-range (y, x, j),
      and holds that tap's step. */
  lemma ScheduleIndex(cfg: Config, begin: Index4, m: nat)
    requires Positive(cfg.t) && m < |Schedule(cfg, begin)|
    ensures Splittable(TapShape(cfg)) && m < Size(TapShape(cfg))
    ensures var tap := PackedMultiIndex(TapShape(cfg), m);
      InBounds(TapShape(cfg), tap) && tap.d0 == 0 &&
      Schedule(cfg, begin)[m] == StepAt(cfg, begin, tap.d1, tap.d2, tap.d3 * cfg.t.CPerBlock)
  {
    var s := Schedule(cfg, begin);
    var Y, X, nc := Y(cfg.g), X(cfg.g), CBlocks(cfg);
    if Y == 0 || X == 0 || nc == 0 {
      RowsStepsLengthZero(cfg, begin, Y);
      assert false;
    }
    ScheduleAt(cfg, begin, 0, 0, 0);
    var tap := PackedMultiIndex(TapShape(cfg), m);
    ScheduleAt(cfg, begin, tap.d1, tap.d2, tap.d3);
  }

  /** With no taps or no channel blocks the loop issues no step. */
  lemma {:induction false} RowsStepsLengthZero(cfg: Config, begin: Index4, ys: nat)
    requires Positive(cfg.t) && (X(cfg.g) == 0 || CBlocks(cfg) == 0 || ys == 0)
    ensures RowsSteps(cfg, begin, ys) == []
    decreases ys
  {
    if ys > 0 {
      RowsStepsLengthZero(cfg, begin, ys - 1);
      RowStepsEmpty(cfg, begin, ys - 1, X(cfg.g));
    }
  }

  lemma {:induction false} RowStepsEmpty(cfg: Config, begin: Index4, y: nat, xs: nat)
    requires Positive(cfg.t) && (xs == 0 || CBlocks(cfg) == 0)
    ensures RowSteps(cfg, begin, y, xs) == []
    decreases xs
  {
    if xs > 0 {
      RowStepsEmpty(cfg, begin, y, xs - 1);
    }
  }

  /** A filter tap and channel-block origin the loop must visit. */
  predicate IsTap(cfg: Config, y: int, x: int, c0: int)
    requires Positive(cfg.t)
  {
    0 <= y < Y(cfg.g) && 0 <= x < X(cfg.g) && 0 <= c0 < C(cfg.g) && c0 % cfg.t.CPerBlock == 0
  }

  /** The order the loop visits taps in: y, then x, then c0. */
  function TapKey(s: Step): Index4 {
    Index4(0, s.y, s.x, s.c0)
  }

  /** Every step of the loop is a tap of the filter and a channel block,
      every such (y, x, c0) is visited, the visits are in strictly increasing
      (y, x, c0) order, and so no tap is visited twice. */
  lemma ScheduleVisitsEachTapOnce(cfg: Config, begin: Index4, m1: nat, m2: nat, y: nat, x: nat, c0: nat)
    requires Positive(cfg.t) && WorkDivides(cfg.g, cfg.t)
    ensures var s := Schedule(cfg, begin);
      m1 < |s| ==> IsTap(cfg, s[m1].y, s[m1].x, s[m1].c0) && s[m1] == StepAt(cfg, begin, s[m1].y, s[m1].x, s[m1].c0)
    ensures var s := Schedule(cfg, begin);
      IsTap(cfg, y, x, c0) ==>
        var m := TapPosition(cfg, y, x, c0 / cfg.t.CPerBlock);
        0 <= m < |s| && s[m] == StepAt(cfg, begin, y, x, c0)
    ensures var s := Schedule(cfg, begin);
      m1 < m2 < |s| ==> LexLess(TapKey(s[m1]), TapKey(s[m2]))
    ensures var s := Schedule(cfg, begin);
      m1 < |s| && m2 < |s| && TapKey(s[m1]) == TapKey(s[m2]) ==> m1 == m2
  {
    var s, shape, p := Schedule(cfg, begin), TapShape(cfg), cfg.t.CPerBlock;
    DividesQuotient(p, C(cfg.g));
    if m1 < |s| {
      ScheduleIndex(cfg, begin, m1);
      var a := PackedMultiIndex(shape, m1);
      MulLess(a.d3, CBlocks(cfg), p);
      MulDivides(p, a.d3);
    }
    if IsTap(cfg, y, x, c0) {
      DividesQuotient(p, c0);
      MulLess(c0 / p, CBlocks(cfg), p);
      ScheduleAt(cfg, begin, y, x, c0 / p);
    }
    if m1 < |s| && m2 < |s| {
      ScheduleIndex(cfg, begin, m1);
      ScheduleIndex(cfg, begin, m2);
      var a, b := PackedMultiIndex(shape, m1), PackedMultiIndex(shape, m2);
      PackedOrder(shape, a, b);
      PackedOrder(shape, b, a);
      MulLess(a.d3, b.d3, p);
      MulLess(b.d3, a.d3, p);
    }
  }

  /** The steps of tap (y, x) grow one channel block at a time. */
  lemma TapStepsSnoc(cfg: Config, begin: Index4, y: nat, x: nat, j: nat)
    requires Positive(cfg.t) && j < CBlocks(cfg)
    ensures TapSteps(cfg, begin, y, x)[..j + 1] ==
      TapSteps(cfg, begin, y, x)[..j] + [StepAt(cfg, begin, y, x, j * cfg.t.CPerBlock)]
  {
  }

  /** The body of the x loop for tap (y, x): both source pointers are placed
      on channel 0 of the tap's window, then for each channel block the tiles
      are copied, the thread's contribution is added to the register tile,
      and the pointers move CPerBlock channels on. The pointers stay equal to
      the offsets of (c0, hi_begin + y, wi_begin + x, n_begin) and
      (c0, y, x, k_begin). The register tile held `start` before the first
      step of the block. */
  method TapLoop(cfg: Config, begin: Index4, y: nat, x: nat, acc: array<int>,
                 gemm: (int, int) -> seq<int>, ghost start: seq<int>, steps0: seq<Step>)
    returns (steps: seq<Step>)
    requires Positive(cfg.t) && Divides(cfg.t.CPerBlock, C(cfg.g))
    requires forall i, w :: |gemm(i, w)| == acc.Length
    requires |start| == acc.Length
    requires acc[..] == Add(start, TileAfter(steps0, gemm, acc.Length))
    modifies acc
    ensures steps == steps0 + TapSteps(cfg, begin, y, x)
    ensures acc[..] == Add(start, TileAfter(steps, gemm, acc.Length))
  {
    var g, t := cfg.g, cfg.t;
    var hiBegin := begin.d1 - cfg.leftPads.h;
    var wiBegin := begin.d2 - cfg.leftPads.w;
    ghost var nc := CBlocks(cfg);
    ghost var tap := TapSteps(cfg, begin, y, x);
    DividesQuotient(t.CPerBlock, C(g));
    var inPtr := Offset(g.inStrides, Index4(0, hiBegin + y, wiBegin + x, begin.d3));
    var weiPtr := Offset(g.weiStrides, Index4(0, y, x, begin.d0));
    var inStep, weiStep := t.CPerBlock * g.inStrides.d0, t.CPerBlock * g.weiStrides.d0;
    ghost var inBase, weiBase := inPtr, weiPtr;
    steps := steps0;
    var c0 := 0;
    ghost var j := 0;
    while c0 < C(g)
      invariant 0 <= j <= nc && c0 == j * t.CPerBlock
      invariant inPtr == inBase + j * inStep && weiPtr == weiBase + j * weiStep
      invariant steps == steps0 + tap[..j]
      invariant acc[..] == Add(start, TileAfter(steps, gemm, acc.Length))
    {
      var st := Step(c0, y, x, inPtr, weiPtr);
      assert j < nc by {
        MulLess(j, nc, t.CPerBlock);
      }
      assert st == StepAt(cfg, begin, y, x, j * t.CPerBlock) by {
        OffsetAdvance(g.inStrides, j, t.CPerBlock, hiBegin + y, wiBegin + x, begin.d3);
        OffsetAdvance(g.weiStrides, j, t.CPerBlock, y, x, begin.d0);
      }
      TapStepsSnoc(cfg, begin, y, x, j);
      AppendAssoc(steps0, tap[..j], [st]);
      steps := CopyAndGemm(acc, gemm, start, steps, st);
      assert (j + 1) * t.CPerBlock == c0 + t.CPerBlock && (j + 1) * inStep == j * inStep + inStep &&
             (j + 1) * weiStep == j * weiStep + weiStep;
      c0, j := c0 + t.CPerBlock, j + 1;
      inPtr := inPtr + inStep;
      weiPtr := weiPtr + weiStep;
    }
    assert tap[..j] == tap by {
      MulLess(j, nc, t.CPerBlock);
    }
  }

  /** One block's main loop as seen by the thread whose GEMM C origin is
      `threadC`, on its register tile `acc`: the tile is zeroed through the
      thread's C-matrix descriptor (`MatrixSetZero`), then for y, for x, for
      each channel block the input and weight tiles are copied and the
      thread's GEMM contribution `gemm(inOffset, weiOffset)` is added to the
      tile. Each register ends as what the zeroing left in it plus the sum of
      the contributions; since the zeroing skips every `ho > 0` slice, that
      is the plain sum from zero only when HoPerThread is 1. Returns the steps
      in the order they were issued and the offset of the thread's first
      output element. */
  method Run(cfg: Config, blockId: nat, threadC: MatrixCoord, gemm: (int, int) -> seq<int>, acc: array<int>)
    returns (steps: seq<Step>, outBase: int)
    requires Valid(cfg) && blockId < GridSize(cfg)
    requires acc.Length == ThreadTileSize(cfg.t)
    requires forall i, w :: |gemm(i, w)| == acc.Length
    modifies acc
    ensures steps == Schedule(cfg, BlockDataBegin(cfg, blockId))
    ensures forall m :: 0 <= m < acc.Length ==>
      acc[m] == (if ZeroedByMatrixSetZero(cfg.t, m) then 0 else old(acc[m])) +
                TileAfter(steps, gemm, acc.Length)[m]
    ensures cfg.t.HoPerThread == 1 ==> acc[..] == TileAfter(steps, gemm, acc.Length)
    ensures outBase == Offset(cfg.g.outStrides, Plus(BlockDataBegin(cfg, blockId), ThreadDataBegin(cfg.t, threadC)))
  {
    var g, t := cfg.g, cfg.t;
    var begin := BlockDataBegin(cfg, blockId);
    MatrixSetZero(t, acc);
    ghost var start := acc[..];
    steps := [];
    AddZeros(start);
    assert TileAfter(steps, gemm, acc.Length) == Zeros(acc.Length);
    var y := 0;
    while y < Y(g)
      invariant 0 <= y <= Y(g)
      invariant steps == StepsBefore(cfg, begin, y, 0)
      invariant acc[..] == Add(start, TileAfter(steps, gemm, acc.Length))
    {
      var x := 0;
      while x < X(g)
        invariant 0 <= x <= X(g)
        invariant steps == StepsBefore(cfg, begin, y, x)
        invariant acc[..] == Add(start, TileAfter(steps, gemm, acc.Length))
      {
        StepsBeforeNext(cfg, begin, y, x);
        steps := TapLoop(cfg, begin, y, x, acc, gemm, start, steps);
        x := x + 1;
      }
      StepsBeforeNext(cfg, begin, y, x);
      y := y + 1;
    }
    assert steps == StepsBefore(cfg, begin, Y(g), 0);
    if t.HoPerThread == 1 {
      MatrixSetZeroCoversTileIff(t);
      assert start == Zeros(acc.Length);
      AddZeros(TileAfter(steps, gemm, acc.Length));
    }
    outBase := Offset(g.outStrides, Plus(begin, ThreadDataBegin(t, threadC)));
  }

  // ---------------------------------------------------------------------
  // Writeback: the 10-d output reshape

  /** Lengths of the 10-d global output view: K, Wo and N folded by the
      chosen reshape, Ho kept. */
  function FoldedOutLengths(g: ConvTensors, f: OutputFold): seq<nat>
    requires FoldFactorsPositive(f)
  {
    FoldLengths(K(g), KIntervals(f)) + [Ho(g)] + FoldLengths(Wo(g), WIntervals(f)) +
    FoldLengths(N(g), NIntervals(f))
  }

  /** Lengths of the thread's 10-d register view. */
  function FoldedThreadLengths(t: Tuning, f: OutputFold): seq<nat>
    requires ThreadFoldDivides(t, f)
  {
    FoldLengths(t.KPerThread, ThreadKIntervals(f)) + [t.HoPerThread] +
    FoldLengths(t.WoPerThread, ThreadWIntervals(f)) + FoldLengths(t.NPerThread, ThreadNIntervals(f))
  }

  lemma ProductOfFour(a: seq<nat>, b: seq<nat>, c: seq<nat>, d: seq<nat>)
    ensures Product(a + b + c + d) == Product(a) * Product(b) * Product(c) * Product(d)
  {
    ProductAppend(a, b);
    ProductAppend(a + b, c);
    ProductAppend(a + b + c, d);
  }

  /** Both 10-d views have ten dimensions and keep the element count: the
      global view covers the whole output and the register view the whole
      thread tile. */
  lemma FoldedCounts(cfg: Config)
    requires Valid(cfg)
    ensures var f := ChooseOutputFold(cfg.t);
      |FoldedOutLengths(cfg.g, f)| == 10 && |FoldedThreadLengths(cfg.t, f)| == 10
    ensures Product(FoldedOutLengths(cfg.g, ChooseOutputFold(cfg.t))) == Size(cfg.g.outLengths)
    ensures Product(FoldedThreadLengths(cfg.t, ChooseOutputFold(cfg.t))) == ThreadTileSize(cfg.t)
  {
    var g, t, f := cfg.g, cfg.t, ChooseOutputFold(cfg.t);
    FoldKeepsCount(K(g), KIntervals(f));
    FoldKeepsCount(Wo(g), WIntervals(f));
    FoldKeepsCount(N(g), NIntervals(f));
    assert Product([Ho(g)]) == Ho(g);
    ProductOfFour(FoldLengths(K(g), KIntervals(f)), [Ho(g)],
                  FoldLengths(Wo(g), WIntervals(f)), FoldLengths(N(g), NIntervals(f)));
    FoldKeepsCount(t.KPerThread, ThreadKIntervals(f));
    FoldKeepsCount(t.WoPerThread, ThreadWIntervals(f));
    FoldKeepsCount(t.NPerThread, ThreadNIntervals(f));
    assert Product([t.HoPerThread]) == t.HoPerThread;
    ProductOfFour(FoldLengths(t.KPerThread, ThreadKIntervals(f)), [t.HoPerThread],
                  FoldLengths(t.WoPerThread, ThreadWIntervals(f)), FoldLengths(t.NPerThread, ThreadNIntervals(f)));
  }

  // ---------------------------------------------------------------------
  // Zeroing the register tile through the thread's C-matrix descriptor

  /** Row stride of the thread's C matrix: stride 0 of the packed
      [KPerThread, HoPerThread, WoPerThread, NPerThread] register tile. */
  function ThreadRowStride(t: Tuning): nat {
    t.HoPerThread * t.WoPerThread * t.NPerThread
  }

  /** Offsets the [KPerThread, WoPerThread * NPerThread] matrix with that row
      stride covers. */
  predicate ZeroedByMatrixSetZero(t: Tuning, m: int)
    requires Positive(t)
  {
    0 <= m && m / ThreadRowStride(t) < t.KPerThread &&
    m % ThreadRowStride(t) < t.WoPerThread * t.NPerThread
  }

  lemma MatrixCell(t: Tuning, i: nat, j: nat)
    requires Positive(t) && i < t.KPerThread && j < t.WoPerThread * t.NPerThread
    ensures j < ThreadRowStride(t)
    ensures i * ThreadRowStride(t) + j < ThreadTileSize(t)
    ensures (i * ThreadRowStride(t) + j) / ThreadRowStride(t) == i
    ensures (i * ThreadRowStride(t) + j) % ThreadRowStride(t) == j
  {
    var rs, wn := ThreadRowStride(t), t.WoPerThread * t.NPerThread;
    MulAtLeast(t.HoPerThread, wn);
    assert rs == t.HoPerThread * wn;
    MulLess(i, t.KPerThread, rs);
    MulAtLeast(t.KPerThread - i, rs);
    assert (t.KPerThread - i) * rs == ThreadTileSize(t) - i * rs;
    DivModUnique(i * rs + j, rs, i, j);
  }

  /** Element m lies in row i of the matrix view, in one of its first j
      columns. */
  ghost predicate InRowPrefix(t: Tuning, i: nat, j: nat, m: int)
    requires Positive(t)
  {
    m / ThreadRowStride(t) == i && m % ThreadRowStride(t) < j
  }

  /** Adding column j to the prefix of row i adds exactly element i * rs + j. */
  lemma RowPrefixNext(t: Tuning, i: nat, j: nat, m: int)
    requires Positive(t) && i < t.KPerThread && j < t.WoPerThread * t.NPerThread && m >= 0
    ensures InRowPrefix(t, i, j + 1, m) <==> InRowPrefix(t, i, j, m) || m == i * ThreadRowStride(t) + j
  {
    MatrixCell(t, i, j);
  }

  /** Zeroes row i of the matrix view: the WoPerThread * NPerThread
      elements from i * rs on. */
  method MatrixSetZeroRow(t: Tuning, a: array<int>, i: nat)
    requires Positive(t) && a.Length == ThreadTileSize(t) && i < t.KPerThread
    modifies a
    ensures forall m :: 0 <= m < a.Length ==>
      a[m] == (if InRowPrefix(t, i, t.WoPerThread * t.NPerThread, m) then 0 else old(a[m]))
  {
    var rs, wn := ThreadRowStride(t), t.WoPerThread * t.NPerThread;
    var j := 0;
    while j < wn
      invariant 0 <= j <= wn
      invariant forall m :: 0 <= m < a.Length ==>
        a[m] == (if InRowPrefix(t, i, j, m) then 0 else old(a[m]))
    {
      MatrixCell(t, i, j);
      a[i * rs + j] := 0;
      forall m | 0 <= m < a.Length
        ensures InRowPrefix(t, i, j + 1, m) <==> InRowPrefix(t, i, j, m) || m == i * rs + j
      {
        RowPrefixNext(t, i, j, m);
      }
      j := j + 1;
    }
  }

  /** Zeroing of the register tile as the kernel writes it: a
      KPerThread x (WoPerThread * NPerThread) matrix whose rows are
      HoPerThread * WoPerThread * NPerThread apart. */
  method MatrixSetZero(t: Tuning, a: array<int>)
    requires Positive(t) && a.Length == ThreadTileSize(t)
    modifies a
    ensures forall m :: 0 <= m < a.Length ==>
      a[m] == (if ZeroedByMatrixSetZero(t, m) then 0 else old(a[m]))
  {
    var rs, wn := ThreadRowStride(t), t.WoPerThread * t.NPerThread;
    var i := 0;
    while i < t.KPerThread
      invariant 0 <= i <= t.KPerThread
      invariant forall m :: 0 <= m < a.Length ==>
        a[m] == (if 0 <= m / rs < i && m % rs < wn then 0 else old(a[m]))
    {
      MatrixSetZeroRow(t, a, i);
      i := i + 1;
    }
  }

  /** The matrix zeroing reaches the whole register tile exactly when
      HoPerThread is 1; otherwise the element (k, ho, wo, n) = (0, 1, 0, 0)
      keeps whatever the register held and the GEMM accumulates onto it. */
  lemma MatrixSetZeroCoversTileIff(t: Tuning)
    requires Positive(t)
    ensures (forall m :: 0 <= m < ThreadTileSize(t) ==> ZeroedByMatrixSetZero(t, m)) <==> t.HoPerThread == 1
    ensures t.HoPerThread > 1 ==>
      var m := Packed1d(Shape4(t.KPerThread, t.HoPerThread, t.WoPerThread, t.NPerThread), Index4(0, 1, 0, 0));
      m < ThreadTileSize(t) && !ZeroedByMatrixSetZero(t, m)
  {
    if t.HoPerThread == 1 {
      MatrixSetZeroCoversFlatTile(t);
    } else {
      MatrixSetZeroMissesSecondRow(t);
    }
  }

  lemma MatrixSetZeroCoversFlatTile(t: Tuning)
    requires Positive(t) && t.HoPerThread == 1
    ensures forall m :: 0 <= m < ThreadTileSize(t) ==> ZeroedByMatrixSetZero(t, m)
  {
    var rs := ThreadRowStride(t);
    assert ThreadTileSize(t) == t.KPerThread * rs;
    forall m | 0 <= m < ThreadTileSize(t) ensures ZeroedByMatrixSetZero(t, m) {
      DivBound(m, rs, t.KPerThread);
    }
  }

  lemma MatrixSetZeroMissesSecondRow(t: Tuning)
    requires Positive(t) && t.HoPerThread > 1
    ensures var m := Packed1d(Shape4(t.KPerThread, t.HoPerThread, t.WoPerThread, t.NPerThread), Index4(0, 1, 0, 0));
      m < ThreadTileSize(t) && !ZeroedByMatrixSetZero(t, m)
  {
    var rs, wn := ThreadRowStride(t), t.WoPerThread * t.NPerThread;
    var m := Packed1d(Shape4(t.KPerThread, t.HoPerThread, t.WoPerThread, t.NPerThread), Index4(0, 1, 0, 0));
    assert m == wn;
    assert rs == t.HoPerThread * wn;
    assert wn < rs by {
      MulAtLeast(t.HoPerThread - 1, wn);
      assert (t.HoPerThread - 1) * wn == rs - wn;
    }
    DivModUnique(m, rs, 0, wn);
    assert rs <= ThreadTileSize(t) by {
      MulAtLeast(t.KPerThread, rs);
      assert ThreadTileSize(t) == t.KPerThread * rs;
    }
  }

  // ---------------------------------------------------------------------
  // What the input tile copy reads

  /** Reference: the input element a stride-1 convolution with the input
      zero-padded by the left pads reads for output (ho, wo) at tap (y, x). */
  function ConvInputAt(cfg: Config, c: int, ho: int, wo: int, n: int, y: int, x: int): PadLookup {
    var h, w := ho + y - cfg.leftPads.h, wo + x - cfg.leftPads.w;
    if 0 <= h < Hi(cfg.g) && 0 <= w < Wi(cfg.g) then Lower(Index4(c, h, w, n)) else InPadding
  }

  /** What the input tile copy reads for tile element `e` at tap (y, x) and
      channel block c0, as the kernel composes it: the source pointer already
      sits on input coordinate (c0, ho_begin - left pad + y, wo_begin - left
      pad + x, n_begin), and the copy resolves `e` through the padded view from
      origin 0, so the left pads are subtracted a second time and the padding
      test is made on `e` alone. */
  function TileReadAsWritten(cfg: Config, begin: Index4, y: int, x: int, c0: int, e: Index4): PadLookup {
    match PadLower(cfg, e)
    case InPadding => InPadding
    case Lower(l) =>
      Lower(Plus(Index4(c0, begin.d1 - cfg.leftPads.h + y, begin.d2 - cfg.leftPads.w + x, begin.d3), l))
  }

  /** Where a tile element comes from: the zero padding, or a global offset
      of the input tensor. */
  datatype TileSource = FromPadding | FromGlobal(offset: int)

  /** The corrected input tile copy for step `s` of the block at `begin`:
      the copy's source origin is the padded-view coordinate
      (c0, ho_begin + y, wo_begin + x, n_begin), the padding test is made on
      that origin plus `e` as a whole, and a non-padding element is read at
      the step's input pointer `s.inOffset` moved by the offset of `e`. */
  function TileReadAddress(cfg: Config, begin: Index4, s: Step, e: Index4): TileSource {
    if PadLower(cfg, Plus(Index4(s.c0, begin.d1 + s.y, begin.d2 + s.x, begin.d3), e)).InPadding? then FromPadding
    else FromGlobal(s.inOffset + Offset(cfg.g.inStrides, e))
  }

  /** For every step the main loop issues, the corrected copy reads padding
      exactly where the reference padded convolution does, and otherwise
      reads the global input element the convolution needs. */
  lemma TileReadAddressIsConvolutionInput(cfg: Config, begin: Index4, m: nat, e: Index4)
    requires Positive(cfg.t) && WorkDivides(cfg.g, cfg.t) && m < |Schedule(cfg, begin)|
    ensures var s := Schedule(cfg, begin)[m];
      var want := ConvInputAt(cfg, s.c0 + e.d0, begin.d1 + e.d1, begin.d2 + e.d2, begin.d3 + e.d3, s.y, s.x);
      (TileReadAddress(cfg, begin, s, e).FromPadding? <==> want.InPadding?) &&
      (want.Lower? ==> TileReadAddress(cfg, begin, s, e) == FromGlobal(Offset(cfg.g.inStrides, want.i)))
  {
    var s := Schedule(cfg, begin)[m];
    ScheduleVisitsEachTapOnce(cfg, begin, m, m, 0, 0, 0);
    StepReadAddress(cfg, begin, s.y, s.x, s.c0, e);
  }

  /** The same at the step for tap (y, x) and channel block c0: the step's
      input pointer sits on input coordinate (c0, ho_begin - left pad + y,
      wo_begin - left pad + x, n_begin), so moving it by the offset of `e`
      lands on the convolution's input element. */
  lemma StepReadAddress(cfg: Config, begin: Index4, y: nat, x: nat, c0: nat, e: Index4)
    ensures var s := StepAt(cfg, begin, y, x, c0);
      var want := ConvInputAt(cfg, c0 + e.d0, begin.d1 + e.d1, begin.d2 + e.d2, begin.d3 + e.d3, y, x);
      (TileReadAddress(cfg, begin, s, e).FromPadding? <==> want.InPadding?) &&
      (want.Lower? ==> TileReadAddress(cfg, begin, s, e) == FromGlobal(Offset(cfg.g.inStrides, want.i)))
  {
    var o := Index4(c0, begin.d1 - cfg.leftPads.h + y, begin.d2 - cfg.leftPads.w + x, begin.d3);
    OffsetAdditive(cfg.g.inStrides, o, e);
  }

  /** As written, a non-padding read lands two left pads above and left of
      the element the convolution needs. */
  lemma TileReadAsWrittenShiftsTwice(cfg: Config, begin: Index4, y: int, x: int, c0: int, e: Index4)
    requires TileReadAsWritten(cfg, begin, y, x, c0, e).Lower?
    ensures TileReadAsWritten(cfg, begin, y, x, c0, e).i ==
      Index4(c0 + e.d0, begin.d1 + y + e.d1 - 2 * cfg.leftPads.h,
             begin.d2 + x + e.d2 - 2 * cfg.leftPads.w, begin.d3 + e.d3)
  {
  }

  /** A 3 x 3 input with one pixel of padding on each side, a 3 x 3 filter and
      one block covering the whole 3 x 3 output. */
  function PaddingExample(): Config {
    var packed := Shape4(1, 3, 3, 1);
    var g := ConvTensors(packed, PackedStrides(packed), packed, PackedStrides(packed),
                         packed, PackedStrides(packed));
    var t := Tuning(1, 1, 1, 3, 3, 1, 1, 1, 3, 1, 1, 1, 1, 1, 1, 1, 1, 1, 1, 1, 1);
    Config(g, t, Pads(1, 1), Pads(1, 1))
  }

  /** The example passes every check of the kernel. */
  lemma PaddingExampleValid()
    ensures Valid(PaddingExample())
  {
    var cfg := PaddingExample();
    var f := SplitN(1, 1, 3, 1, 1, 1);
    assert ChooseOutputFold(cfg.t) == f;
    assert KIntervals(f) == [1, 1] && WIntervals(f) == [3, 1] && NIntervals(f) == [1, 1];
    assert ThreadKIntervals(f) == [1, 1] && ThreadWIntervals(f) == [3, 1] && ThreadNIntervals(f) == [1, 1];
    assert Product([1, 1]) == 1;
    assert Product([3, 1]) == 3;
  }

  /** The example runs as a single block. */
  lemma PaddingExampleSingleBlock()
    ensures Positive(PaddingExample().t) && GridSize(PaddingExample()) == 1
  {
    assert BlockWorkShape(PaddingExample()) == Shape4(1, 1, 1, 1);
  }

  /** In that valid instantiation, at tap (0, 0) of block 0 (whose tile
      begins at the origin, by `BlockZeroOrigin`) the centre element of the tile should read input
      (0, 0, 0, 0); as written it reads (0, -1, -1, 0), outside the input
      tensor. */
  lemma TileReadAsWrittenCounterexample()
    ensures Valid(PaddingExample())
    ensures var cfg := PaddingExample();
      var begin := Index4(0, 0, 0, 0);
      var e := Index4(0, 1, 1, 0);
      InBounds(InBlockShape(cfg.t), e) &&
      ConvInputAt(cfg, 0, 1, 1, 0, 0, 0) == Lower(Index4(0, 0, 0, 0)) &&
      TileReadAsWritten(cfg, begin, 0, 0, 0, e) == Lower(Index4(0, -1, -1, 0)) &&
      !InBounds(cfg.g.inLengths, Index4(0, -1, -1, 0))
  {
    PaddingExampleValid();
  }

}
