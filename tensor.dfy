/** The descriptor algebra the kernels rely on: 4-d multi-indices, offsets
    under strides, packed (row-major) layouts and their mixed-radix
    decomposition, aligned layouts, and the lengths produced by folding one
    dimension into several. */
module Tensor {
  import opened Arith

  /** A 4-d multi-index, a stride vector, or a 4-d displacement. */
  datatype Index4 = Index4(d0: int, d1: int, d2: int, d3: int)

  /** Lengths of the four dimensions of a tensor. */
  datatype Shape4 = Shape4(l0: nat, l1: nat, l2: nat, l3: nat)

  function Plus(a: Index4, b: Index4): Index4 {
    Index4(a.d0 + b.d0, a.d1 + b.d1, a.d2 + b.d2, a.d3 + b.d3)
  }

  /** Offset of a multi-index in a native descriptor with the given strides
      (`CalculateOffset`, `Get1dIndex`). */
  function Offset(strides: Index4, i: Index4): int {
    i.d0 * strides.d0 + i.d1 * strides.d1 + i.d2 * strides.d2 + i.d3 * strides.d3
  }

  /** Offsets are linear in the multi-index, which is what lets a kernel move a
      pointer by a displacement instead of recomputing the whole offset. */
  lemma OffsetAdditive(s: Index4, a: Index4, b: Index4)
    ensures Offset(s, Plus(a, b)) == Offset(s, a) + Offset(s, b)
  {
    assert (a.d0 + b.d0) * s.d0 == a.d0 * s.d0 + b.d0 * s.d0;
    assert (a.d1 + b.d1) * s.d1 == a.d1 * s.d1 + b.d1 * s.d1;
    assert (a.d2 + b.d2) * s.d2 == a.d2 * s.d2 + b.d2 * s.d2;
    assert (a.d3 + b.d3) * s.d3 == a.d3 * s.d3 + b.d3 * s.d3;
  }

  function Size(l: Shape4): nat {
    l.l0 * l.l1 * l.l2 * l.l3
  }

  predicate InBounds(l: Shape4, i: Index4) {
    0 <= i.d0 < l.l0 && 0 <= i.d1 < l.l1 && 0 <= i.d2 < l.l2 && 0 <= i.d3 < l.l3
  }

  /** The inner three lengths are non-zero, so a linear index can be split. */
  predicate Splittable(l: Shape4) {
    l.l1 > 0 && l.l2 > 0 && l.l3 > 0
  }

  /** Row-major position of a multi-index: dimension 0 most significant. */
  function Packed1d(l: Shape4, i: Index4): int {
    ((i.d0 * l.l1 + i.d1) * l.l2 + i.d2) * l.l3 + i.d3
  }

  /** Strides of a packed descriptor (`make_ConstantTensorDescriptor_packed`). */
  function PackedStrides(l: Shape4): Index4 {
    Index4(l.l1 * l.l2 * l.l3, l.l2 * l.l3, l.l3, 1)
  }

  /** The offset in a packed descriptor is the row-major position. */
  lemma PackedStridesOffset(l: Shape4, i: Index4)
    ensures Offset(PackedStrides(l), i) == Packed1d(l, i)
  {
    calc {
      Packed1d(l, i);
      ((i.d0 * l.l1 + i.d1) * l.l2 + i.d2) * l.l3 + i.d3;
      (i.d0 * l.l1 + i.d1) * l.l2 * l.l3 + i.d2 * l.l3 + i.d3;
      { assert (i.d0 * l.l1 + i.d1) * l.l2 * l.l3 == i.d0 * (l.l1 * l.l2 * l.l3) + i.d1 * (l.l2 * l.l3); }
      i.d0 * (l.l1 * l.l2 * l.l3) + i.d1 * (l.l2 * l.l3) + i.d2 * l.l3 + i.d3;
    }
  }

  /** `q / l < a` exactly when `q < a * l`. */
  lemma DivBound(q: nat, l: nat, a: nat)
    requires l > 0
    ensures q / l < a <==> q < a * l
  {
    assert q == (q / l) * l + q % l;
    MulSign(q / l - a, l);
    MulSign(q / l - a + 1, l);
    assert (q / l - a) * l == (q / l) * l - a * l;
    assert (q / l - a + 1) * l == (q / l) * l - a * l + l;
  }

  /** `GetMultiIndexFrom1dIndex` of a packed descriptor: the mixed-radix digits
      of `id`, dimension 3 least significant. Composing them back gives `id`,
      and they lie inside the lengths exactly when `id` lies inside the size. */
  function PackedMultiIndex(l: Shape4, id: nat): (i: Index4)
    requires Splittable(l)
    ensures Packed1d(l, i) == id
    ensures i.d0 >= 0 && 0 <= i.d1 < l.l1 && 0 <= i.d2 < l.l2 && 0 <= i.d3 < l.l3
    ensures InBounds(l, i) <==> id < Size(l)
  {
    var q3 := id / l.l3;
    var q2 := q3 / l.l2;
    var i := Index4(q2 / l.l1, q2 % l.l1, q3 % l.l2, id % l.l3);
    PackedDigitsCompose(l, id, q3, q2, i);
    PackedDigitsBound(l, id, q3, q2, i);
    i
  }

  lemma PackedDigitsCompose(l: Shape4, id: nat, q3: nat, q2: nat, i: Index4)
    requires Splittable(l) && q3 == id / l.l3 && q2 == q3 / l.l2
    requires i == Index4(q2 / l.l1, q2 % l.l1, q3 % l.l2, id % l.l3)
    ensures Packed1d(l, i) == id
    ensures i.d0 >= 0 && 0 <= i.d1 < l.l1 && 0 <= i.d2 < l.l2 && 0 <= i.d3 < l.l3
  {
    assert q2 == i.d0 * l.l1 + i.d1;
    assert q3 == q2 * l.l2 + i.d2;
    assert id == q3 * l.l3 + i.d3;
  }

  lemma PackedDigitsBound(l: Shape4, id: nat, q3: nat, q2: nat, i: Index4)
    requires Splittable(l) && q3 == id / l.l3 && q2 == q3 / l.l2
    requires i == Index4(q2 / l.l1, q2 % l.l1, q3 % l.l2, id % l.l3)
    ensures InBounds(l, i) <==> id < Size(l)
  {
    DivBound(q2, l.l1, l.l0);
    DivBound(q3, l.l2, l.l0 * l.l1);
    DivBound(id, l.l3, l.l0 * l.l1 * l.l2);
  }

  /** Linear index 0 is the origin. */
  lemma PackedZero(l: Shape4)
    requires Splittable(l)
    ensures PackedMultiIndex(l, 0) == Index4(0, 0, 0, 0)
  {
  }

  /** Every in-bounds multi-index is the decomposition of exactly one linear
      index below the size: the decomposition is a bijection. */
  lemma PackedInverse(l: Shape4, i: Index4)
    requires InBounds(l, i)
    ensures Splittable(l)
    ensures 0 <= Packed1d(l, i) < Size(l)
    ensures PackedMultiIndex(l, Packed1d(l, i)) == i
  {
    var q2 := i.d0 * l.l1 + i.d1;
    var q3 := q2 * l.l2 + i.d2;
    var id := q3 * l.l3 + i.d3;
    assert q2 >= 0 && q3 >= 0 && id >= 0;
    DivModUnique(id, l.l3, q3, i.d3);
    DivModUnique(q3, l.l2, q2, i.d2);
    DivModUnique(q2, l.l1, i.d0, i.d1);
    var j := PackedMultiIndex(l, id);
    assert j == i;
  }

  /** Lexicographic order on multi-indices, dimension 0 first. */
  predicate LexLess(a: Index4, b: Index4) {
    a.d0 < b.d0 || (a.d0 == b.d0 &&
    (a.d1 < b.d1 || (a.d1 == b.d1 &&
    (a.d2 < b.d2 || (a.d2 == b.d2 && a.d3 < b.d3)))))
  }

  /** Comparing `hi * l + lo` numbers with digits `lo < l` is comparing the
      pairs `(hi, lo)` lexicographically. */
  lemma DigitLess(hiA: int, loA: int, hiB: int, loB: int, l: nat)
    requires 0 <= loA < l && 0 <= loB < l
    ensures hiA * l + loA < hiB * l + loB <==> hiA < hiB || (hiA == hiB && loA < loB)
  {
    MulSign(hiB - hiA, l);
    assert (hiB - hiA) * l == hiB * l - hiA * l;
  }

  /** Row-major positions follow the lexicographic order of in-bounds
      multi-indices. */
  lemma PackedOrder(l: Shape4, a: Index4, b: Index4)
    requires InBounds(l, a) && InBounds(l, b)
    ensures Packed1d(l, a) < Packed1d(l, b) <==> LexLess(a, b)
  {
    var a2, b2 := a.d0 * l.l1 + a.d1, b.d0 * l.l1 + b.d1;
    var a3, b3 := a2 * l.l2 + a.d2, b2 * l.l2 + b.d2;
    DigitLess(a.d0, a.d1, b.d0, b.d1, l.l1);
    DigitLess(a2, a.d2, b2, b.d2, l.l2);
    DigitLess(a3, a.d3, b3, b.d3, l.l3);
    DigitEq(a.d0, a.d1, b.d0, b.d1, l.l1);
    DigitEq(a2, a.d2, b2, b.d2, l.l2);
  }

  lemma DigitEq(hiA: int, loA: int, hiB: int, loB: int, l: nat)
    requires 0 <= loA < l && 0 <= loB < l
    ensures hiA * l + loA == hiB * l + loB <==> hiA == hiB && loA == loB
  {
    DigitLess(hiA, loA, hiB, loB, l);
    DigitLess(hiB, loB, hiA, loA, l);
  }

  /** Strides of `make_ConstantTensorDescriptor_aligned`: the packed strides of
      the lengths whose last entry is rounded up to a multiple of `align`. */
  function AlignedStrides(l: Shape4, align: nat): Index4
    requires align > 0
  {
    PackedStrides(AlignedShape(l, align))
  }

  function AlignedShape(l: Shape4, align: nat): Shape4
    requires align > 0
  {
    Shape4(l.l0, l.l1, l.l2, RoundUp(l.l3, align))
  }

  /** An aligned layout keeps every stride but the last a multiple of the
      alignment, and still gives distinct in-bounds multi-indices distinct
      offsets inside `l0 * l1 * l2 * RoundUp(l3, align)` elements. */
  lemma AlignedLayout(l: Shape4, align: nat, i: Index4, j: Index4)
    requires align > 0
    ensures var s := AlignedStrides(l, align);
      Divides(align, s.d0) && Divides(align, s.d1) && Divides(align, s.d2) && s.d3 == 1
    ensures InBounds(l, i) ==>
      0 <= Offset(AlignedStrides(l, align), i) < Size(AlignedShape(l, align))
    ensures (InBounds(l, i) && InBounds(l, j) &&
             Offset(AlignedStrides(l, align), i) == Offset(AlignedStrides(l, align), j)) ==> i == j
  {
    var p := AlignedShape(l, align);
    var r := p.l3;
    assert Divides(align, r);
    DividesCombination(align, r, 0, p.l2);
    DividesCombination(align, r * p.l2, 0, p.l1);
    assert p.l1 * p.l2 * p.l3 == p.l1 * (p.l2 * r);
    assert p.l2 * p.l3 == p.l2 * r;
    PackedStridesOffset(p, i);
    PackedStridesOffset(p, j);
    if InBounds(l, i) {
      PackedInverse(p, i);
    }
    if InBounds(l, i) && InBounds(l, j) {
      PackedInverse(p, j);
    }
  }

  /** Product of a sequence of lengths. */
  function Product(s: seq<nat>): nat {
    if s == [] then 1 else s[0] * Product(s[1..])
  }

  lemma ProductPair(a: nat, b: nat)
    ensures Product([a, b]) == a * b
  {
    assert [a, b][1..] == [b];
    assert [b][1..] == [];
    assert Product([b]) == b;
  }

  lemma ProductTriple(a: nat, b: nat, c: nat)
    ensures Product([a, b, c]) == a * b * c
  {
    assert [a, b, c][1..] == [b, c];
    ProductPair(b, c);
  }

  lemma ProductQuad(a: nat, b: nat, c: nat, d: nat)
    ensures Product([a, b, c, d]) == a * b * c * d
  {
    assert [a, b, c, d][1..] == [b, c, d];
    ProductTriple(b, c, d);
  }

  lemma {:induction false} ProductAppend(a: seq<nat>, b: seq<nat>)
    ensures Product(a + b) == Product(a) * Product(b)
    decreases |a|
  {
    if a == [] {
      assert a + b == b;
    } else {
      assert (a + b)[1..] == a[1..] + b;
      ProductAppend(a[1..], b);
    }
  }

  /** Lengths that `Fold(dim, intervals...)` puts in place of a dimension of
      length `len`: the quotient, then the intervals. */
  function FoldLengths(len: nat, intervals: seq<nat>): seq<nat>
    requires Product(intervals) > 0
  {
    [len / Product(intervals)] + intervals
  }

  /** A fold whose intervals divide the length keeps the element count. */
  lemma FoldKeepsCount(len: nat, intervals: seq<nat>)
    requires Product(intervals) > 0 && Divides(Product(intervals), len)
    ensures Product(FoldLengths(len, intervals)) == len
  {
    var f := FoldLengths(len, intervals);
    assert f[1..] == intervals;
  }
}
