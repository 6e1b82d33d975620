/**
 * How the exporter cuts one split of `m` samples into chunk directories
 * (`data1`, `data2`, ...) of `samples_per_subdir` samples each.
 * `samples_per_subdir` is Python's optional integer: `None` and `0` are both
 * falsy and give a single chunk; a negative value is truthy and is divided
 * with Python's floor division.
 */
module Chunking {
  import opened Wrappers
  import opened Seqs

  /** Python truthiness of `samples_per_subdir`. */
  predicate Truthy(k: Option<int>) { k.Some? && k.value != 0 }

  predicate PositiveSize(k: Option<int>) { k.Some? && k.value > 0 }

  predicate NegativeSize(k: Option<int>) { k.Some? && k.value < 0 }

  /** Python's `a // b`: rounds toward negative infinity. */
  function FloorDiv(a: int, b: int): int
    requires b != 0
  {
    if b > 0 then a / b else (-a) / (-b)
  }

  lemma FloorDivSpec(a: int, b: int)
    requires b != 0
    ensures b > 0 ==> FloorDiv(a, b) * b <= a < FloorDiv(a, b) * b + b
    ensures b < 0 ==> FloorDiv(a, b) * b + b < a <= FloorDiv(a, b) * b
  {
  }

  /**
   * The number of iterations of `for subdir_idx in range(num_subdirs)`:
   * `num_subdirs` is `(m + k - 1) // k` when the size is truthy and 1
   * otherwise; `range` of a negative count is empty.
   */
  function ChunkCount(m: nat, k: Option<int>): nat
  {
    var num := if Truthy(k) then FloorDiv(m + k.value - 1, k.value) else 1;
    if num < 0 then 0 else num
  }

  /**
   * The count is the ceiling of `m / k` for a positive size: the fewest
   * chunks of `k` that hold `m` samples, none when the split is empty; it is
   * one for an unset size.
   */
  lemma ChunkCountSpec(m: nat, k: Option<int>)
    ensures var n := ChunkCount(m, k);
            && (!Truthy(k) ==> n == 1)
            && (PositiveSize(k) ==> m <= n * k.value)
            && (PositiveSize(k) ==> (n == 0 <==> m == 0))
            && (PositiveSize(k) && n > 0 ==> (n - 1) * k.value < m)
  {
    if Truthy(k) {
      FloorDivSpec(m + k.value - 1, k.value);
    }
  }

  /** `start_idx` of chunk `i`. */
  function ChunkStart(i: nat, k: Option<int>): int
  {
    if Truthy(k) then i * k.value else 0
  }

  /** `end_idx` of chunk `i`; the indices it covers are never outside the split. */
  function ChunkEnd(i: nat, m: nat, k: Option<int>): (e: int)
    ensures e <= m
    ensures ChunkStart(i, k) < e ==> 0 <= ChunkStart(i, k)
  {
    if Truthy(k) then
      var s := ChunkStart(i, k) + k.value;
      if s < m then s else m
    else m
  }

  /** The sample indices chunk `i` visits: `range(start_idx, end_idx)`. */
  function ChunkIndices(i: nat, m: nat, k: Option<int>): seq<int>
  {
    Range(ChunkStart(i, k), ChunkEnd(i, m, k))
  }

  /** All chunk index ranges of a split, in chunk order. */
  function AllChunks(m: nat, k: Option<int>): (cs: seq<seq<int>>)
    ensures |cs| == ChunkCount(m, k)
  {
    seq(ChunkCount(m, k), i requires 0 <= i => ChunkIndices(i, m, k))
  }

  lemma MulMonotone(a: int, b: int, c: int)
    requires a <= b && c >= 0
    ensures a * c <= b * c
  {
  }

  /** With a positive size every chunk is non-empty, inside the split, and holds at most `k` samples. */
  lemma ChunkBounds(i: nat, m: nat, k: Option<int>)
    requires PositiveSize(k) && i < ChunkCount(m, k)
    ensures 0 <= ChunkStart(i, k) < ChunkEnd(i, m, k) <= m
    ensures ChunkEnd(i, m, k) - ChunkStart(i, k) <= k.value
  {
    var n := ChunkCount(m, k);
    ChunkCountSpec(m, k);
    MulMonotone(i, n - 1, k.value);
  }

  /** Each chunk ends where the next one starts, and the last one ends at the end of the split. */
  lemma ChunksContiguous(i: nat, m: nat, k: Option<int>)
    requires !NegativeSize(k) && i < ChunkCount(m, k)
    ensures ChunkEnd(i, m, k) == if i + 1 < ChunkCount(m, k) then ChunkStart(i + 1, k) else m
  {
    if PositiveSize(k) {
      var n := ChunkCount(m, k);
      ChunkCountSpec(m, k);
      if i + 1 < n {
        MulMonotone(i + 1, n - 1, k.value);
      } else {
        assert i + 1 == n;
      }
    }
  }

  /** The last chunk holds what is left over after the full ones. */
  lemma LastChunkSize(m: nat, k: Option<int>)
    requires PositiveSize(k) && m > 0
    ensures var n := ChunkCount(m, k);
            ChunkEnd(n - 1, m, k) - ChunkStart(n - 1, k) == m - (n - 1) * k.value
  {
    ChunksContiguous(ChunkCount(m, k) - 1, m, k);
  }

  /** Two different chunks never share a sample index. */
  lemma ChunksDisjoint(i: nat, j: nat, m: nat, k: Option<int>)
    requires i < j < ChunkCount(m, k)
    ensures forall x :: x in ChunkIndices(i, m, k) ==> x !in ChunkIndices(j, m, k)
  {
    if PositiveSize(k) {
      ChunksContiguous(i, m, k);
      MulMonotone(i + 1, j, k.value);
    }
  }

  /** With a negative size every chunk is empty: no sample is ever visited. */
  lemma NegativeSizeVisitsNothing(i: nat, m: nat, k: Option<int>)
    requires NegativeSize(k)
    ensures ChunkIndices(i, m, k) == []
  {
  }

  /** Unless the size is negative, the chunks, in order, visit exactly `0, 1, ..., m - 1`. */
  lemma ChunksPartition(m: nat, k: Option<int>)
    requires !NegativeSize(k)
    ensures Flatten(AllChunks(m, k)) == Range(0, m)
  {
    var cs := AllChunks(m, k);
    var n := |cs|;
    ChunkCountSpec(m, k);
    if n == 0 {
      assert m == 0;
    } else {
      PartitionPrefix(m, k, n);
      ChunksContiguous(n - 1, m, k);
      assert cs[..n] == cs;
    }
  }

  lemma {:induction false} PartitionPrefix(m: nat, k: Option<int>, j: nat)
    requires !NegativeSize(k) && 1 <= j <= ChunkCount(m, k)
    ensures Flatten(AllChunks(m, k)[..j]) == Range(0, ChunkEnd(j - 1, m, k))
  {
    var cs := AllChunks(m, k);
    assert cs[..j][..j - 1] == cs[..j - 1];
    if j == 1 {
      assert cs[..1][..0] == [];
      if PositiveSize(k) {
        ChunkBounds(0, m, k);
      }
    } else {
      PartitionPrefix(m, k, j - 1);
      ChunksContiguous(j - 2, m, k);
      var mid := ChunkStart(j - 1, k);
      if PositiveSize(k) {
        ChunkBounds(j - 1, m, k);
      }
      RangeConcat(0, mid, ChunkEnd(j - 1, m, k));
    }
  }

  /** The `(start_idx, end_idx)` pair of every iteration of the chunk loop, in order. */
  function Bounds(m: nat, k: Option<int>): seq<(int, int)>
  {
    seq(ChunkCount(m, k), i requires 0 <= i => (ChunkStart(i, k), ChunkEnd(i, m, k)))
  }

  /** Every non-empty range of `bs` lies inside a split of `m` samples. */
  predicate Fits(bs: seq<(int, int)>, m: nat)
  {
    forall j :: 0 <= j < |bs| ==> (bs[j].0 < bs[j].1 ==> 0 <= bs[j].0 && bs[j].1 <= m)
  }

  /** The ranges of `bs` are inside `[0, m)`, each ends where the next starts and the last ends at `m`. */
  predicate Tiled(bs: seq<(int, int)>, m: nat)
  {
    forall j :: 0 <= j < |bs| ==>
      && 0 <= bs[j].0 <= bs[j].1 <= m
      && bs[j].1 == if j + 1 < |bs| then bs[j + 1].0 else m
  }

  /** The chunk ranges never leave the split, whatever the size. */
  lemma BoundsFit(m: nat, k: Option<int>)
    ensures Fits(Bounds(m, k), m)
  {
  }

  /**
   * Unless the size is negative, the chunk ranges tile the split from index 0:
   * there are none only for an empty split with a set size.
   */
  lemma BoundsTiled(m: nat, k: Option<int>)
    requires !NegativeSize(k)
    ensures Tiled(Bounds(m, k), m)
    ensures |Bounds(m, k)| == 0 ==> m == 0
    ensures |Bounds(m, k)| > 0 ==> Bounds(m, k)[0].0 == 0
  {
    var bs := Bounds(m, k);
    forall j | 0 <= j < |bs|
      ensures 0 <= bs[j].0 <= bs[j].1 <= m
      ensures bs[j].1 == if j + 1 < |bs| then bs[j + 1].0 else m
    {
      if PositiveSize(k) {
        ChunkBounds(j, m, k);
      }
      ChunksContiguous(j, m, k);
    }
    ChunkCountSpec(m, k);
  }

  /** With a negative size no chunk range holds an index. */
  lemma BoundsEmptyWhenNegative(m: nat, k: Option<int>)
    requires NegativeSize(k)
    ensures forall j :: 0 <= j < |Bounds(m, k)| ==> Bounds(m, k)[j].1 <= Bounds(m, k)[j].0
  {
  }
}
