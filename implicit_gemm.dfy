/** What the two implicit-GEMM convolution kernels (`v1r3`, layouts input
    [C, Hi, Wi, N], weight [C, Y, X, K], output [K, Ho, Wo, N]) have in
    common: the tuning parameters, the compile-time checks both make, the
    split of a thread's GEMM-C origin into output coordinates, and the choice
    of the 10-d output layout. */
module ImplicitGemm {
  import opened Arith
  import opened Tensor
  import opened ThreadTile
  import opened Seqs

  /** Lengths and strides of the three global tensors. */
  datatype ConvTensors = ConvTensors(
    inLengths: Shape4, inStrides: Index4,     // [C, Hi, Wi, N]
    weiLengths: Shape4, weiStrides: Index4,   // [C, Y, X, K]
    outLengths: Shape4, outStrides: Index4)   // [K, Ho, Wo, N]

  function C(g: ConvTensors): nat { g.inLengths.l0 }
  function Hi(g: ConvTensors): nat { g.inLengths.l1 }
  function Wi(g: ConvTensors): nat { g.inLengths.l2 }
  function Y(g: ConvTensors): nat { g.weiLengths.l1 }
  function X(g: ConvTensors): nat { g.weiLengths.l2 }
  function K(g: ConvTensors): nat { g.outLengths.l0 }
  function Ho(g: ConvTensors): nat { g.outLengths.l1 }
  function Wo(g: ConvTensors): nat { g.outLengths.l2 }
  function N(g: ConvTensors): nat { g.outLengths.l3 }

  /** The compile-time tuning parameters. The three copy widths are
      `InBlockCopyDataPerAccess_N` / `InBlockCopyDataPerRead_N`,
      `WeiBlockCopyDataPerAccess_K` / `WeiBlockCopyDataPerRead_K` and
      `OutThreadCopyDataPerAccess_N` / `OutThreadCopyDataPerWrite_N`. */
  datatype Tuning = Tuning(
    NPerBlock: nat, KPerBlock: nat, CPerBlock: nat, HoPerBlock: nat, WoPerBlock: nat,
    NPerThread: nat, KPerThread: nat, HoPerThread: nat, WoPerThread: nat,
    GemmMPerThreadSubC: nat, GemmNPerThreadSubC: nat,
    GemmMLevel0Cluster: nat, GemmNLevel0Cluster: nat,
    GemmMLevel1Cluster: nat, GemmNLevel1Cluster: nat,
    GemmKPerThreadLoop: nat, GemmDataPerReadA: nat, GemmDataPerReadB: nat,
    InCopyWidth: nat, WeiCopyWidth: nat, OutCopyWidth: nat)

  /** The three descriptors describe one convolution: input and output agree
      on N, input and weight on C, weight and output on K. */
  predicate Consistent(g: ConvTensors) {
    g.inLengths.l3 == g.outLengths.l3 && g.inLengths.l0 == g.weiLengths.l0 &&
    g.weiLengths.l3 == g.outLengths.l0
  }

  /** Every tuning parameter is used as a divisor or a length somewhere, so a
      compiling instantiation has all of them non-zero. */
  predicate Positive(t: Tuning) {
    t.NPerBlock > 0 && t.KPerBlock > 0 && t.CPerBlock > 0 && t.HoPerBlock > 0 && t.WoPerBlock > 0 &&
    t.NPerThread > 0 && t.KPerThread > 0 && t.HoPerThread > 0 && t.WoPerThread > 0 &&
    t.GemmMPerThreadSubC > 0 && t.GemmNPerThreadSubC > 0 &&
    t.GemmMLevel0Cluster > 0 && t.GemmNLevel0Cluster > 0 &&
    t.GemmMLevel1Cluster > 0 && t.GemmNLevel1Cluster > 0 &&
    t.GemmKPerThreadLoop > 0 && t.GemmDataPerReadA > 0 && t.GemmDataPerReadB > 0 &&
    t.InCopyWidth > 0 && t.WeiCopyWidth > 0 && t.OutCopyWidth > 0
  }

  /** The first check of both kernels: how a block's N tile is split among
      threads and GEMM sub-tiles. */
  predicate NSplitOk(t: Tuning)
    requires Positive(t)
  {
    t.NPerBlock % t.NPerThread == 0 &&
    ((t.GemmNPerThreadSubC <= t.NPerBlock && t.NPerBlock % t.GemmNPerThreadSubC == 0) ||
     (t.GemmNPerThreadSubC >= t.NPerBlock && t.NPerThread == t.NPerBlock &&
      t.GemmNPerThreadSubC % t.NPerThread == 0))
  }

  /** The second check of both kernels: the block tiles divide the problem. */
  predicate WorkDivides(g: ConvTensors, t: Tuning)
    requires Positive(t)
  {
    N(g) % t.NPerBlock == 0 && K(g) % t.KPerBlock == 0 && C(g) % t.CPerBlock == 0 &&
    Ho(g) % t.HoPerBlock == 0 && Wo(g) % t.WoPerBlock == 0
  }

  /** The block-id decomposition divides by the inner block counts, so the
      output must not be empty in Ho, Wo and N. */
  predicate OutputNonEmpty(g: ConvTensors) {
    Ho(g) > 0 && Wo(g) > 0 && N(g) > 0
  }

  /** Elements of a thread's register tile [KPerThread, HoPerThread, WoPerThread, NPerThread]. */
  function ThreadTileSize(t: Tuning): nat {
    t.KPerThread * t.HoPerThread * t.WoPerThread * t.NPerThread
  }

  /** With a tile size that divides the length, the `b`-th tile of a valid
      block index lies inside the dimension, and the ceiling-divided block
      count is the exact quotient. */
  lemma TileInside(len: nat, per: nat, b: nat)
    requires per > 0 && Divides(per, len) && b < DivCeil(len, per)
    ensures DivCeil(len, per) == len / per
    ensures 0 <= b * per && b * per + per <= len
  {
    DivCeilExact(len, per);
    assert (b + 1) * per <= DivCeil(len, per) * per by {
      MulSign(DivCeil(len, per) - (b + 1), per);
      assert DivCeil(len, per) * per - (b + 1) * per == (DivCeil(len, per) - (b + 1)) * per;
    }
  }

  /** The thread's origin in the block's GEMM C matrix
      (`GetBeginOfThreadMatrixC`, computed in a header not part of this
      model): its row (K), batch (Ho) and column (Wo * NPerBlock + N). */
  datatype MatrixCoord = MatrixCoord(row: nat, batch: nat, col: nat)

  /** The thread's origin inside the block's output tile, in output order
      [K, Ho, Wo, N]: the column is split into (wo, n) with n below NPerBlock. */
  function ThreadDataBegin(t: Tuning, c: MatrixCoord): (o: Index4)
    requires t.NPerBlock > 0
    ensures o.d0 == c.row && o.d1 == c.batch
    ensures o.d2 >= 0 && 0 <= o.d3 < t.NPerBlock
    ensures o.d2 * t.NPerBlock + o.d3 == c.col
    ensures c.col < t.WoPerBlock * t.NPerBlock ==> o.d2 < t.WoPerBlock
  {
    var wo, n := c.col / t.NPerBlock, c.col % t.NPerBlock;
    DivBound(c.col, t.NPerBlock, t.WoPerBlock);
    Index4(c.row, c.batch, wo, n)
  }

  /** The split is the only one of its kind: any (wo, n) with n below
      NPerBlock that recomposes to the column is the one computed. */
  lemma ThreadDataBeginUnique(t: Tuning, c: MatrixCoord, wo: nat, n: nat)
    requires t.NPerBlock > 0 && n < t.NPerBlock && wo * t.NPerBlock + n == c.col
    ensures ThreadDataBegin(t, c).d2 == wo && ThreadDataBegin(t, c).d3 == n
  {
    DivModUnique(c.col, t.NPerBlock, wo, n);
  }

  /** The two reshapes of the output into 10 dimensions, chosen by
      `GemmNPerThreadSubC <= NPerBlock`: either N is split into N1 x N2 and Wo
      into W1 x W2, or N is kept whole (N1 = NPerBlock) and Wo is split into
      W1 x W2 x W3. K is split into K1 x K2 in both. */
  datatype OutputFold =
    | SplitN(N1: nat, N2: nat, W1: nat, W2: nat, K1: nat, K2: nat)
    | SplitW(N1: nat, W1: nat, W2: nat, W3: nat, K1: nat, K2: nat)

  /** The divisions in the fold factors are by non-zero values. */
  predicate FoldComputable(t: Tuning) {
    Positive(t) &&
    (t.GemmNPerThreadSubC <= t.NPerBlock ==>
      (t.GemmNLevel0Cluster * t.GemmNLevel1Cluster) / (t.NPerBlock / t.GemmNPerThreadSubC) > 0)
  }

  function ChooseOutputFold(t: Tuning): OutputFold
    requires FoldComputable(t)
  {
    var K2 := t.GemmMPerThreadSubC;
    var K1 := t.KPerBlock / t.KPerThread;
    if t.GemmNPerThreadSubC <= t.NPerBlock then
      var N2 := t.GemmNPerThreadSubC;
      var N1 := t.NPerBlock / N2;
      var W2 := (t.GemmNLevel0Cluster * t.GemmNLevel1Cluster) / (t.NPerBlock / t.GemmNPerThreadSubC);
      var W1 := t.WoPerBlock / W2;
      SplitN(N1, N2, W1, W2, K1, K2)
    else
      var N1 := t.NPerBlock;
      var W3 := t.GemmNPerThreadSubC / t.NPerBlock;
      var W2 := t.GemmNLevel0Cluster * t.GemmNLevel1Cluster;
      var W1 := t.WoPerBlock / (W2 * W3);
      SplitW(N1, W1, W2, W3, K1, K2)
  }

  /** The check each branch of the output reshape repeats for itself. */
  predicate SplitNCheck(t: Tuning)
    requires Positive(t)
  {
    t.GemmNPerThreadSubC <= t.NPerBlock && t.NPerBlock % t.GemmNPerThreadSubC == 0
  }

  predicate SplitWCheck(t: Tuning)
    requires Positive(t)
  {
    t.GemmNPerThreadSubC >= t.NPerBlock && t.NPerThread == t.NPerBlock &&
    t.GemmNPerThreadSubC % t.NPerThread == 0
  }

  /** Under the kernel's first check, the branch that `GemmNPerThreadSubC <=
      NPerBlock` selects always passes its own check, so exactly one reshape
      is instantiated and it never fails. Its N factors then recompose
      NPerBlock exactly, and the W3 factor of the second reshape recomposes
      GemmNPerThreadSubC. */
  lemma ChosenFoldPassesItsCheck(t: Tuning)
    requires FoldComputable(t) && NSplitOk(t)
    ensures t.GemmNPerThreadSubC <= t.NPerBlock ==> SplitNCheck(t)
    ensures t.GemmNPerThreadSubC > t.NPerBlock ==> SplitWCheck(t)
    ensures ChooseOutputFold(t).SplitN? <==> t.GemmNPerThreadSubC <= t.NPerBlock
    ensures ChooseOutputFold(t).SplitN? ==>
      ChooseOutputFold(t).N1 * ChooseOutputFold(t).N2 == t.NPerBlock
    ensures ChooseOutputFold(t).SplitW? ==>
      ChooseOutputFold(t).N1 == t.NPerBlock == t.NPerThread &&
      ChooseOutputFold(t).W3 * t.NPerBlock == t.GemmNPerThreadSubC
  {
    if t.GemmNPerThreadSubC <= t.NPerBlock {
      DividesQuotient(t.GemmNPerThreadSubC, t.NPerBlock);
    } else {
      DividesQuotient(t.NPerBlock, t.GemmNPerThreadSubC);
    }
  }

  /** The interval lists each reshape folds K, Wo and N with. */
  function KIntervals(f: OutputFold): seq<nat> { [f.K1, f.K2] }

  function WIntervals(f: OutputFold): seq<nat> {
    match f
    case SplitN(_, _, W1, W2, _, _) => [W1, W2]
    case SplitW(_, W1, W2, W3, _, _) => [W1, W2, W3]
  }

  function NIntervals(f: OutputFold): seq<nat> {
    match f
    case SplitN(N1, N2, _, _, _, _) => [N1, N2]
    case SplitW(N1, _, _, _, _, _) => [N1]
  }

  /** Every factor of the reshape is non-zero. */
  predicate FoldFactorsPositive(f: OutputFold) {
    Product(KIntervals(f)) > 0 && Product(WIntervals(f)) > 0 && Product(NIntervals(f)) > 0
  }

  /** The factors divide the global output lengths they fold. */
  predicate FoldDividesOutput(g: ConvTensors, f: OutputFold)
    requires FoldFactorsPositive(f)
  {
    Divides(Product(KIntervals(f)), K(g)) &&
    Divides(Product(WIntervals(f)), Wo(g)) &&
    Divides(Product(NIntervals(f)), N(g))
  }

  /** One iteration of a kernel's main loop: the channel-block origin, the
      filter tap, and the global offsets the input and weight tile copies
      start from. */
  datatype Step = Step(c0: nat, y: nat, x: nat, inOffset: int, weiOffset: int)

  /** A thread's contribution for each step. The blockwise tile copies and
      the blockwise batched GEMM live in headers not part of this model: since
      global memory is read-only and the shared tiles are rewritten every
      step, the thread's contribution is a function of the two offsets the
      copies start from. */
  function Contributions(steps: seq<Step>, gemm: (int, int) -> seq<int>): (ds: seq<seq<int>>)
    ensures |ds| == |steps|
    ensures forall k :: 0 <= k < |steps| ==> ds[k] == gemm(steps[k].inOffset, steps[k].weiOffset)
  {
    seq(|steps|, k requires 0 <= k < |steps| => gemm(steps[k].inOffset, steps[k].weiOffset))
  }

  /** The register tile after zeroing it and issuing `steps` in order. */
  function TileAfter(steps: seq<Step>, gemm: (int, int) -> seq<int>, n: nat): (r: seq<int>)
    requires forall i, w :: |gemm(i, w)| == n
    ensures |r| == n
  {
    Accumulated(Contributions(steps, gemm), n)
  }

  /** Issuing one more step adds its contribution to the register tile. */
  lemma AccumulateStep(steps: seq<Step>, s: Step, gemm: (int, int) -> seq<int>, n: nat)
    requires forall i, w :: |gemm(i, w)| == n
    ensures TileAfter(steps + [s], gemm, n) ==
      Add(TileAfter(steps, gemm, n), gemm(s.inOffset, s.weiOffset))
  {
    assert Contributions(steps + [s], gemm) == Contributions(steps, gemm) + [gemm(s.inOffset, s.weiOffset)];
    AccumulatedSnoc(Contributions(steps, gemm), gemm(s.inOffset, s.weiOffset), n);
  }

  lemma ContributionsAppend(a: seq<Step>, b: seq<Step>, gemm: (int, int) -> seq<int>)
    ensures Contributions(a + b, gemm) == Contributions(a, gemm) + Contributions(b, gemm)
  {
  }

  /** Reordering the steps reorders their contributions. */
  lemma {:induction false} ContributionsPermutation(a: seq<Step>, b: seq<Step>, gemm: (int, int) -> seq<int>)
    requires multiset(a) == multiset(b)
    ensures multiset(Contributions(a, gemm)) == multiset(Contributions(b, gemm))
    decreases |a|
  {
    if a == [] {
      assert b == [];
    } else {
      var x := a[|a| - 1];
      assert x in multiset(b);
      var j :| 0 <= j < |b| && b[j] == x;
      var a', b1, b2 := a[..|a| - 1], b[..j], b[j + 1..];
      MultisetRemove(a, b, j);
      ContributionsPermutation(a', b1 + b2, gemm);
      assert a == a' + [x];
      assert b == b1 + [x] + b2;
      ContributionsAppend(a', [x], gemm);
      ContributionsAppend(b1 + [x], b2, gemm);
      ContributionsAppend(b1, [x], gemm);
      ContributionsAppend(b1, b2, gemm);
    }
  }

  /** Issuing the same steps in another order leaves the same register tile. */
  lemma StepsReordered(a: seq<Step>, b: seq<Step>, gemm: (int, int) -> seq<int>, n: nat)
    requires multiset(a) == multiset(b)
    requires forall i, w :: |gemm(i, w)| == n
    ensures TileAfter(a, gemm, n) == TileAfter(b, gemm, n)
  {
    ContributionsPermutation(a, b, gemm);
    AccumulatedPermutation(Contributions(a, gemm), Contributions(b, gemm), n);
  }

  /** Appending a step to a trace that extends `steps0` by `prefix`. */
  lemma AppendAssoc(steps0: seq<Step>, prefix: seq<Step>, more: seq<Step>)
    ensures steps0 + prefix + more == steps0 + (prefix + more)
  {
  }

  /** One step of either kernel's main loop as seen by one thread: the input
      and weight tiles are copied to shared memory starting at the step's two
      offsets, the block synchronises, and the blockwise GEMM adds the
      thread's contribution `gemm(inOffset, weiOffset)` to its register tile
      in place. The step is appended to the trace of issued steps. The
      register tile held `start` before the first step (all zeros when the
      whole tile was zeroed). */
  method CopyAndGemm(acc: array<int>, gemm: (int, int) -> seq<int>, ghost start: seq<int>,
                     steps: seq<Step>, s: Step)
    returns (issued: seq<Step>)
    requires forall i, w :: |gemm(i, w)| == acc.Length
    requires |start| == acc.Length
    requires acc[..] == Add(start, TileAfter(steps, gemm, acc.Length))
    modifies acc
    ensures issued == steps + [s]
    ensures acc[..] == Add(start, TileAfter(issued, gemm, acc.Length))
  {
    ghost var before := acc[..];
    AddInto(acc, gemm(s.inOffset, s.weiOffset));
    assert acc[..] == Add(before, gemm(s.inOffset, s.weiOffset));
    AccumulateStep(steps, s, gemm, acc.Length);
    AddAssoc(start, TileAfter(steps, gemm, acc.Length), gemm(s.inOffset, s.weiOffset));
    issued := steps + [s];
  }

  /** After `k` moves of `p` along dimension 0, a pointer that started on
      index 0 of that dimension sits on index `k * p`. */
  lemma OffsetAdvance(s: Index4, k: int, p: int, i1: int, i2: int, i3: int)
    ensures Offset(s, Index4(k * p, i1, i2, i3)) == Offset(s, Index4(0, i1, i2, i3)) + k * (p * s.d0)
  {
    assert (k * p) * s.d0 == k * (p * s.d0);
  }

  /** The block index along one dimension of an element `i` is `i / per`:
      that block index is below the block count, its tile holds `i`, and it
      is the only block index whose tile does. */
  lemma TileOwner(len: nat, per: nat, i: int, b: int)
    requires per > 0 && Divides(per, len) && 0 <= i < len
    ensures 0 <= i / per < DivCeil(len, per)
    ensures (i / per) * per <= i < (i / per) * per + per
    ensures b * per <= i < b * per + per ==> b == i / per
  {
    DivCeilExact(len, per);
    DivBound(i, per, len / per);
    if b * per <= i < b * per + per {
      DivModUnique(i, per, b, i - b * per);
    }
  }

  /** `a * p < b * p` exactly when `a < b`, for positive `p`. */
  lemma MulLess(a: int, b: int, p: nat)
    requires p > 0
    ensures a * p < b * p <==> a < b
  {
    DigitLess(a, 0, b, 0, p);
  }
}
