/** Host-side shape helpers shared by the reduction device operations: the
    2-d view (invariant length, reduced length) of an input tensor, the
    membership test on a compile-time index sequence, the invariant
    dimensions left over by a reduction, and the projection of a length
    vector onto a tuple. The compile-time sequences and tuples become
    `seq`s; `static_assert`s become preconditions. */
module ReduceCommon {
  import opened Arith
  import opened Tensor
  import opened Seqs

  /** The largest tensor rank the helpers accept. */
  const MaxRank: nat := 6

  // ---------------------------------------------------------------------
  // Index sequences and tuples

  /** Every index of `ns` is below `n`. */
  predicate IndicesBelow(ns: seq<nat>, n: nat) {
    forall i :: 0 <= i < |ns| ==> ns[i] < n
  }

  /** `arithmetic_sequence_gen<lo, hi, 1>`: the indices lo, ..., hi - 1. */
  function Range(lo: nat, hi: nat): seq<nat>
    requires lo <= hi
  {
    seq(hi - lo, i => lo + i)
  }

  /** `make_tuple_from_array_and_index_seq`: one tuple element per index
      of the pack, in pack order; element i is the length at index ns[i]. */
  function MakeTupleFromArrayAndIndexSeq<T>(lengths: seq<T>, ns: seq<nat>): (r: seq<T>)
    requires IndicesBelow(ns, |lengths|)
    ensures |r| == |ns|
    ensures forall i :: 0 <= i < |ns| ==> r[i] == lengths[ns[i]]
  {
    if ns == [] then [] else [lengths[ns[0]]] + MakeTupleFromArrayAndIndexSeq(lengths, ns[1..])
  }

  /** `make_tuple_from_array`: the tuple of the first `arraySize` lengths,
      for a tensor of 1 to 6 dimensions. */
  function MakeTupleFromArray<T>(lengths: seq<T>, arraySize: nat): (r: seq<T>)
    requires 1 <= arraySize <= MaxRank && arraySize <= |lengths|
    ensures r == lengths[..arraySize]
  {
    MakeTupleFromArrayAndIndexSeq(lengths, Range(0, arraySize))
  }

  /** Gathering by a concatenation of index sequences concatenates the
      gathered tuples. */
  lemma GatherAppend<T>(lengths: seq<T>, a: seq<nat>, b: seq<nat>)
    requires IndicesBelow(a, |lengths|) && IndicesBelow(b, |lengths|)
    ensures MakeTupleFromArrayAndIndexSeq(lengths, a + b) ==
            MakeTupleFromArrayAndIndexSeq(lengths, a) + MakeTupleFromArrayAndIndexSeq(lengths, b)
  {
  }

  // ---------------------------------------------------------------------
  // Products of selected lengths

  /** The product of the lengths at the given dimensions. */
  function LengthsProduct(lengths: seq<nat>, dims: seq<nat>): nat
    requires IndicesBelow(dims, |lengths|)
  {
    Product(MakeTupleFromArrayAndIndexSeq(lengths, dims))
  }

  lemma LengthsProductAppend(lengths: seq<nat>, a: seq<nat>, b: seq<nat>)
    requires IndicesBelow(a, |lengths|) && IndicesBelow(b, |lengths|)
    ensures IndicesBelow(a + b, |lengths|)
    ensures LengthsProduct(lengths, a + b) == LengthsProduct(lengths, a) * LengthsProduct(lengths, b)
  {
    GatherAppend(lengths, a, b);
    ProductAppend(MakeTupleFromArrayAndIndexSeq(lengths, a), MakeTupleFromArrayAndIndexSeq(lengths, b));
  }

  /** The product over dimensions does not depend on their order. */
  lemma {:induction false} LengthsProductPermutation(lengths: seq<nat>, a: seq<nat>, b: seq<nat>)
    requires IndicesBelow(a, |lengths|) && IndicesBelow(b, |lengths|)
    requires multiset(a) == multiset(b)
    ensures LengthsProduct(lengths, a) == LengthsProduct(lengths, b)
    decreases |a|
  {
    if |a| == 0 {
      assert |b| == |multiset(b)| == 0;
    } else {
      var x := a[|a| - 1];
      assert x in multiset(b) by {
        assert x in multiset(a);
      }
      var j :| 0 <= j < |b| && b[j] == x;
      MultisetRemove(a, b, j);
      var a', b1, b2 := a[..|a| - 1], b[..j], b[j + 1..];
      assert IndicesBelow(b1, |lengths|) && IndicesBelow(b2, |lengths|);
      LengthsProductAppend(lengths, b1, b2);
      LengthsProductPermutation(lengths, a', b1 + b2);
      assert a == a' + [x];
      SplitAround(b, j);
      PermutationStep(lengths, a', x, b1, b2);
    }
  }

  /** Adding the same dimension to both sides keeps two equal products
      equal. */
  lemma PermutationStep(lengths: seq<nat>, a: seq<nat>, x: nat, b1: seq<nat>, b2: seq<nat>)
    requires x < |lengths|
    requires IndicesBelow(a, |lengths|) && IndicesBelow(b1, |lengths|) && IndicesBelow(b2, |lengths|)
    requires LengthsProduct(lengths, a) == LengthsProduct(lengths, b1) * LengthsProduct(lengths, b2)
    ensures IndicesBelow(a + [x], |lengths|) && IndicesBelow((b1 + [x]) + b2, |lengths|)
    ensures LengthsProduct(lengths, a + [x]) == LengthsProduct(lengths, (b1 + [x]) + b2)
  {
    LengthsProductSingle(lengths, x);
    LengthsProductAppend(lengths, a, [x]);
    LengthsProductAppend(lengths, b1, [x]);
    LengthsProductAppend(lengths, b1 + [x], b2);
    MulSwap(LengthsProduct(lengths, b1), LengthsProduct(lengths, b2), lengths[x]);
  }

  /** A sequence is its prefix before `j`, element `j`, and the rest. */
  lemma SplitAround<T>(s: seq<T>, j: nat)
    requires j < |s|
    ensures s == (s[..j] + [s[j]]) + s[j + 1..]
  {
  }

  lemma LengthsProductSingle(lengths: seq<nat>, x: nat)
    requires x < |lengths|
    ensures IndicesBelow([x], |lengths|) && LengthsProduct(lengths, [x]) == lengths[x]
  {
    assert MakeTupleFromArrayAndIndexSeq(lengths, [x]) == [lengths[x]];
    assert Product([lengths[x]]) == lengths[x] * Product([]);
  }

  // ---------------------------------------------------------------------
  // belong and get_invariant_dims

  /** `belong<x, Seq>`: scans the sequence, or-ing in each comparison. */
  method Belong(x: int, s: seq<int>) returns (inside: bool)
    ensures inside <==> x in s
  {
    inside := false;
    for i := 0 to |s|
      invariant inside <==> x in s[..i]
    {
      assert s[..i + 1] == s[..i] + [s[i]];
      inside := inside || x == s[i];
    }
    assert s[..|s|] == s;
  }

  /** `get_invariant_dims<Rank, ReduceDims, start>`: the dimensions from
      `start` up to `rank` that are not reduced, in increasing order. */
  function InvariantDims(rank: nat, reduceDims: seq<nat>, start: nat): (r: seq<nat>)
    requires rank <= MaxRank
    ensures forall i :: 0 <= i < |r| ==> start <= r[i] < rank && r[i] !in reduceDims
    ensures forall d :: start <= d < rank && d !in reduceDims ==> d in r
    ensures forall i, j :: 0 <= i < j < |r| ==> r[i] < r[j]
    decreases rank - start
  {
    if start >= rank then []
    else if start !in reduceDims then [start] + InvariantDims(rank, reduceDims, start + 1)
    else InvariantDims(rank, reduceDims, start + 1)
  }

  /** When the reduced dimensions are distinct and below `rank`, they and
      the invariant dimensions together are 0, ..., rank - 1, each once. */
  lemma DimsPartition(rank: nat, reduceDims: seq<nat>)
    requires rank <= MaxRank
    requires Distinct(reduceDims) && IndicesBelow(reduceDims, rank)
    ensures multiset(reduceDims + InvariantDims(rank, reduceDims, 0)) == multiset(Range(0, rank))
  {
    var inv := InvariantDims(rank, reduceDims, 0);
    var both, all := reduceDims + inv, Range(0, rank);
    assert Distinct(both) by {
      forall i, j | 0 <= i < j < |both|
        ensures both[i] != both[j]
      {
        if j >= |reduceDims| && i < |reduceDims| {
          assert both[j] in inv;
        }
      }
    }
    forall d
      ensures d in both <==> d in all
    {
      if d in both {
        if d in reduceDims {
          var k :| 0 <= k < |reduceDims| && reduceDims[k] == d;
        } else {
          var k :| 0 <= k < |inv| && inv[k] == d;
        }
        assert all[d] == d;
      }
      if d in all {
        var k :| 0 <= k < |all| && all[k] == d;
        if d !in reduceDims {
          assert d in inv;
        }
      }
    }
    DistinctSameElements(both, all);
  }

  // ---------------------------------------------------------------------
  // get_2d_lengths

  /** The invariant and reduced dimensions split the element count of the
      first `rank` lengths into a product. */
  lemma TotalLengthSplits(inLengths: seq<nat>, rank: nat, reduceDims: seq<nat>)
    requires rank <= MaxRank && rank <= |inLengths|
    requires Distinct(reduceDims) && IndicesBelow(reduceDims, rank)
    ensures Product(inLengths[..rank]) ==
            LengthsProduct(inLengths, reduceDims) * LengthsProduct(inLengths, InvariantDims(rank, reduceDims, 0))
  {
    var inv := InvariantDims(rank, reduceDims, 0);
    var all := Range(0, rank);
    DimsPartition(rank, reduceDims);
    LengthsProductAppend(inLengths, reduceDims, inv);
    LengthsProductPermutation(inLengths, reduceDims + inv, all);
    assert MakeTupleFromArrayAndIndexSeq(inLengths, all) == inLengths[..rank];
  }

  /** `get_2d_lengths<Rank, ReduceDims>`: multiplies up the reduced lengths
      and the first `rank` lengths and returns (total / reduced, reduced).
      When the reduced dimensions are distinct and below `rank` the
      division is exact: the first length is the product of the invariant
      dimensions and the two multiply back to the total. */
  method Get2dLengths(rank: nat, reduceDims: seq<nat>, inLengths: seq<nat>)
    returns (invariantLength: nat, reduceLength: nat)
    requires rank <= MaxRank && rank <= |inLengths|
    requires IndicesBelow(reduceDims, |inLengths|)
    requires LengthsProduct(inLengths, reduceDims) > 0
    ensures reduceLength == LengthsProduct(inLengths, reduceDims)
    ensures invariantLength == Product(inLengths[..rank]) / reduceLength
    ensures Distinct(reduceDims) && IndicesBelow(reduceDims, rank) ==>
      invariantLength == LengthsProduct(inLengths, InvariantDims(rank, reduceDims, 0)) &&
      invariantLength * reduceLength == Product(inLengths[..rank])
  {
    reduceLength := 1;
    for i := 0 to |reduceDims|
      invariant reduceLength == LengthsProduct(inLengths, reduceDims[..i])
    {
      assert reduceDims[..i + 1] == reduceDims[..i] + [reduceDims[i]];
      LengthsProductAppend(inLengths, reduceDims[..i], [reduceDims[i]]);
      reduceLength := reduceLength * inLengths[reduceDims[i]];
    }
    assert reduceDims[..|reduceDims|] == reduceDims;
    var tensorLength: nat := 1;
    for i := 0 to rank
      invariant tensorLength == Product(inLengths[..i])
    {
      assert inLengths[..i + 1] == inLengths[..i] + [inLengths[i]];
      ProductAppend(inLengths[..i], [inLengths[i]]);
      tensorLength := tensorLength * inLengths[i];
    }
    invariantLength := tensorLength / reduceLength;
    if Distinct(reduceDims) && IndicesBelow(reduceDims, rank) {
      TotalLengthSplits(inLengths, rank, reduceDims);
      var inv := LengthsProduct(inLengths, InvariantDims(rank, reduceDims, 0));
      MulDivides(reduceLength, inv);
      assert tensorLength == inv * reduceLength;
    }
  }
}
