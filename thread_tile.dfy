/** A thread's register accumulator (`p_out_thread`): a flat array of the
    thread's output tile, zeroed once and then updated in place by every
    blockwise GEMM step. Elements are exact integers. */
module ThreadTile {
  import opened Seqs

  /** The tile with every element zero. */
  function Zeros(n: nat): seq<int> {
    seq(n, _ => 0)
  }

  /** Element-wise sum of two tiles of the same size. */
  function Add(a: seq<int>, b: seq<int>): seq<int>
    requires |a| == |b|
  {
    seq(|a|, k requires 0 <= k < |a| => a[k] + b[k])
  }

  /** Adding an all-zero tile on either side changes nothing. */
  lemma AddZeros(a: seq<int>)
    ensures Add(Zeros(|a|), a) == a && Add(a, Zeros(|a|)) == a
  {
  }

  /** Adding contributions one after another regroups freely. */
  lemma AddAssoc(a: seq<int>, b: seq<int>, c: seq<int>)
    requires |a| == |b| == |c|
    ensures Add(Add(a, b), c) == Add(a, Add(b, c))
  {
  }

  /** Sets every element of the register tile to zero (the thread-local
      set-zero helper over the whole tile). */
  method SetZero(a: array<int>)
    modifies a
    ensures a[..] == Zeros(a.Length)
  {
    var k := 0;
    while k < a.Length
      invariant 0 <= k <= a.Length
      invariant forall m :: 0 <= m < k ==> a[m] == 0
    {
      a[k] := 0;
      k := k + 1;
    }
  }

  /** `C += A * B` as seen by one thread: its contribution `d` is added to the
      register tile in place. */
  method AddInto(a: array<int>, d: seq<int>)
    requires |d| == a.Length
    modifies a
    ensures a[..] == Add(old(a[..]), d)
  {
    var k := 0;
    while k < a.Length
      invariant 0 <= k <= a.Length
      invariant forall m :: 0 <= m < k ==> a[m] == old(a[m]) + d[m]
      invariant forall m :: k <= m < a.Length ==> a[m] == old(a[m])
    {
      a[k] := a[k] + d[k];
      k := k + 1;
    }
  }

  /** The register tile after zeroing and then adding the contributions `ds`
      in order. */
  function Accumulated(ds: seq<seq<int>>, n: nat): (r: seq<int>)
    requires forall k :: 0 <= k < |ds| ==> |ds[k]| == n
    ensures |r| == n
  {
    if ds == [] then Zeros(n) else Add(Accumulated(ds[..|ds| - 1], n), ds[|ds| - 1])
  }

  /** One more step adds its contribution to the tile accumulated so far. */
  lemma AccumulatedSnoc(ds: seq<seq<int>>, d: seq<int>, n: nat)
    requires forall k :: 0 <= k < |ds| ==> |ds[k]| == n
    requires |d| == n
    ensures Accumulated(ds + [d], n) == Add(Accumulated(ds, n), d)
  {
    assert (ds + [d])[..|ds|] == ds;
  }

  /** Sum of element `e` over the contributions `ds`. */
  function SumAt(ds: seq<seq<int>>, e: nat): int
    requires forall k :: 0 <= k < |ds| ==> e < |ds[k]|
  {
    if ds == [] then 0 else SumAt(ds[..|ds| - 1], e) + ds[|ds| - 1][e]
  }

  /** Each element of the accumulated tile is the sum of that element over
      all contributions: nothing is dropped, nothing is counted twice. */
  lemma {:induction false} AccumulatedIsSum(ds: seq<seq<int>>, n: nat, e: nat)
    requires forall k :: 0 <= k < |ds| ==> |ds[k]| == n
    requires e < n
    ensures Accumulated(ds, n)[e] == SumAt(ds, e)
    decreases |ds|
  {
    if ds != [] {
      AccumulatedIsSum(ds[..|ds| - 1], n, e);
    }
  }

  /** The sum over a concatenation splits. */
  lemma {:induction false} SumAtAppend(a: seq<seq<int>>, b: seq<seq<int>>, e: nat)
    requires forall k :: 0 <= k < |a| ==> e < |a[k]|
    requires forall k :: 0 <= k < |b| ==> e < |b[k]|
    ensures SumAt(a + b, e) == SumAt(a, e) + SumAt(b, e)
    decreases |b|
  {
    if b == [] {
      assert a + b == a;
    } else {
      assert (a + b)[..|a + b| - 1] == a + b[..|b| - 1];
      SumAtAppend(a, b[..|b| - 1], e);
    }
  }

  /** Taking one contribution out of the middle removes exactly its term. */
  lemma SumAtRemove(b: seq<seq<int>>, j: nat, e: nat)
    requires j < |b|
    requires forall k :: 0 <= k < |b| ==> e < |b[k]|
    ensures SumAt(b, e) == SumAt(b[..j] + b[j + 1..], e) + b[j][e]
  {
    var x := b[j];
    assert b == b[..j] + [x] + b[j + 1..];
    SumAtAppend(b[..j] + [x], b[j + 1..], e);
    SumAtAppend(b[..j], [x], e);
    SumAtAppend(b[..j], b[j + 1..], e);
    assert SumAt([x], e) == x[e] by {
      assert [x][..0] == [];
    }
  }

  /** The sum does not depend on the order of the contributions, so two loop
      nests that issue the same steps in different orders accumulate the same
      tile. */
  lemma {:induction false} SumAtPermutation(a: seq<seq<int>>, b: seq<seq<int>>, e: nat)
    requires multiset(a) == multiset(b)
    requires forall k :: 0 <= k < |a| ==> e < |a[k]|
    ensures forall k :: 0 <= k < |b| ==> e < |b[k]|
    ensures SumAt(a, e) == SumAt(b, e)
    decreases |a|
  {
    forall k | 0 <= k < |b| ensures e < |b[k]| {
      assert b[k] in multiset(b);
      assert b[k] in a;
    }
    if a != [] {
      var x := a[|a| - 1];
      assert x in multiset(b);
      var j :| 0 <= j < |b| && b[j] == x;
      MultisetRemove(a, b, j);
      SumAtPermutation(a[..|a| - 1], b[..j] + b[j + 1..], e);
      SumAtRemove(b, j, e);
    } else {
      assert b == [];
    }
  }

  /** Accumulating the same contributions in any order gives the same tile. */
  lemma AccumulatedPermutation(a: seq<seq<int>>, b: seq<seq<int>>, n: nat)
    requires multiset(a) == multiset(b)
    requires forall k :: 0 <= k < |a| ==> |a[k]| == n
    ensures forall k :: 0 <= k < |b| ==> |b[k]| == n
    ensures Accumulated(a, n) == Accumulated(b, n)
  {
    forall k | 0 <= k < |b| ensures |b[k]| == n {
      assert b[k] in multiset(b);
      assert b[k] in a;
    }
    forall e | 0 <= e < n ensures Accumulated(a, n)[e] == Accumulated(b, n)[e] {
      AccumulatedIsSum(a, n, e);
      AccumulatedIsSum(b, n, e);
      SumAtPermutation(a, b, e);
    }
  }
}
