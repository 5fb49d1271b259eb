/**
 The integer chunk splitter: `tot` items are divided into `nSplit` contiguous
 half-open ranges `[start, stop)`. With `d = tot / nSplit` and
 `r = tot % nSplit`, the first `r` ranges hold `d + 1` items and the others
 hold `d`.

 The source uses Python's floor division and modulo. The divisor is positive
 here, and for a positive divisor they agree with Dafny's Euclidean `/` and
 `%` for every `tot`, negative ones included.
 */
module Chunking {

  /** A half-open range of positions `[start, stop)`. */
  datatype Range = Range(start: int, stop: int) {
    function Size(): int { stop - start }
  }

  /** The range of chunk `index` when `tot` items are split into `nSplit` chunks.
      The source does not check `index`; only `0 <= index < nSplit` is meaningful. */
  function Chunk(tot: int, nSplit: int, index: int): (c: Range)
    requires 0 < nSplit && 0 <= index < nSplit
    ensures c.Size() == ReferenceSizes(tot, nSplit)[index]
  {
    var d := tot / nSplit;
    var r := tot % nSplit;
    if index < r then
      Range((d + 1) * index, (d + 1) * (index + 1))
    else
      Range((d + 1) * r + d * (index - r), (d + 1) * r + d * (index - r + 1))
  }

  /** `k` copies of `x`. */
  function Repeat(x: int, k: nat): (s: seq<int>)
    ensures |s| == k
    ensures forall j :: 0 <= j < k ==> s[j] == x
  {
    seq(k, _ => x)
  }

  /** The intended sequence of chunk sizes: `[d+1]*r + [d]*(nSplit-r)`. */
  function ReferenceSizes(tot: int, nSplit: int): (s: seq<int>)
    requires 0 < nSplit
    ensures |s| == nSplit
    ensures forall k :: 0 <= k < tot % nSplit ==> s[k] == tot / nSplit + 1
    ensures forall k :: tot % nSplit <= k < nSplit ==> s[k] == tot / nSplit
  {
    Repeat(tot / nSplit + 1, tot % nSplit) + Repeat(tot / nSplit, nSplit - tot % nSplit)
  }

  function Sum(s: seq<int>): int
  {
    if s == [] then 0 else Sum(s[..|s| - 1]) + s[|s| - 1]
  }

  /** Every chunk has `d` or `d + 1` items, and it has `d + 1` exactly when its
      index is below `r`: the larger chunks are the first `r` ones. Its size is
      the entry of the reference size sequence at its index. */
  lemma ChunkSize(tot: int, nSplit: int, index: int)
    requires 0 < nSplit && 0 <= index < nSplit
    ensures Chunk(tot, nSplit, index).Size() == tot / nSplit || Chunk(tot, nSplit, index).Size() == tot / nSplit + 1
    ensures Chunk(tot, nSplit, index).Size() == tot / nSplit + 1 <==> index < tot % nSplit
    ensures Chunk(tot, nSplit, index).Size() == ReferenceSizes(tot, nSplit)[index]
  {
    var d, r := tot / nSplit, tot % nSplit;
    if index < r {
      assert (d + 1) * (index + 1) == (d + 1) * index + (d + 1);
    } else {
      assert d * (index - r + 1) == d * (index - r) + d;
    }
  }

  /** A larger chunk never follows a smaller one. */
  lemma LargerChunksFirst(tot: int, nSplit: int, i: int, j: int)
    requires 0 < nSplit && 0 <= i <= j < nSplit
    ensures Chunk(tot, nSplit, i).Size() >= Chunk(tot, nSplit, j).Size()
  {
    ChunkSize(tot, nSplit, i);
    ChunkSize(tot, nSplit, j);
  }

  /** Each chunk stops where the next one starts. */
  lemma ChunksContiguous(tot: int, nSplit: int, index: int)
    requires 0 < nSplit && 0 <= index && index + 1 < nSplit
    ensures Chunk(tot, nSplit, index).stop == Chunk(tot, nSplit, index + 1).start
  {
    var d, r := tot / nSplit, tot % nSplit;
    if index + 1 == r {
      assert d * (index + 1 - r) == 0;
    } else if index >= r {
      assert index - r + 1 == index + 1 - r;
    }
  }

  /** The first chunk starts at 0 and the last one stops at `tot`. */
  lemma ChunksSpanTotal(tot: int, nSplit: int)
    requires 0 < nSplit
    ensures Chunk(tot, nSplit, 0).start == 0
    ensures Chunk(tot, nSplit, nSplit - 1).stop == tot
  {
    var d, r := tot / nSplit, tot % nSplit;
    assert tot == d * nSplit + r;
    assert r <= nSplit - 1;
    assert (d + 1) * r + d * (nSplit - 1 - r + 1) == d * r + r + d * (nSplit - r);
    assert d * r + d * (nSplit - r) == d * nSplit;
    if 0 < r {
      assert (d + 1) * 0 == 0;
    } else {
      assert (d + 1) * 0 + d * (0 - 0) == 0;
    }
  }

  /** Chunk `index` starts at the sum of the reference sizes of the chunks
      before it, so the chunks are laid out exactly as the reference size
      sequence says. */
  lemma {:induction false} ChunkStartIsPrefixSum(tot: int, nSplit: int, index: int)
    requires 0 < nSplit && 0 <= index < nSplit
    ensures Chunk(tot, nSplit, index).start == Sum(ReferenceSizes(tot, nSplit)[..index])
    ensures Chunk(tot, nSplit, index).stop == Sum(ReferenceSizes(tot, nSplit)[..index + 1])
  {
    var sizes := ReferenceSizes(tot, nSplit);
    if index == 0 {
      ChunksSpanTotal(tot, nSplit);
      assert sizes[..0] == [];
    } else {
      ChunkStartIsPrefixSum(tot, nSplit, index - 1);
      ChunksContiguous(tot, nSplit, index - 1);
    }
    ChunkSize(tot, nSplit, index);
    assert sizes[..index + 1][..index] == sizes[..index];
  }

  /** The reference sizes add up to `tot`. */
  lemma ReferenceSizesSumToTotal(tot: int, nSplit: int)
    requires 0 < nSplit
    ensures Sum(ReferenceSizes(tot, nSplit)) == tot
  {
    ChunkStartIsPrefixSum(tot, nSplit, nSplit - 1);
    ChunksSpanTotal(tot, nSplit);
    assert ReferenceSizes(tot, nSplit)[..nSplit] == ReferenceSizes(tot, nSplit);
  }

  /** For a non-negative total every chunk lies inside `[0, tot]`. */
  lemma ChunkWithinTotal(tot: int, nSplit: int, index: int)
    requires 0 <= tot && 0 < nSplit && 0 <= index < nSplit
    ensures 0 <= Chunk(tot, nSplit, index).start <= Chunk(tot, nSplit, index).stop <= tot
  {
    var first, c, last := Chunk(tot, nSplit, 0), Chunk(tot, nSplit, index), Chunk(tot, nSplit, nSplit - 1);
    ChunksSpanTotal(tot, nSplit);
    assert first.start == 0 && last.stop == tot;
    ChunksOrdered(tot, nSplit, 0, index);
    assert first.start <= c.start;
    ChunksOrdered(tot, nSplit, index, nSplit - 1);
    assert c.stop <= last.stop;
    ChunkSize(tot, nSplit, index);
    QuotientNonNegative(tot, nSplit);
  }

  lemma QuotientNonNegative(tot: int, nSplit: int)
    requires 0 <= tot && 0 < nSplit
    ensures 0 <= tot / nSplit
  {
  }

  /** For a non-negative total the chunks come in index order without
      overlapping: a chunk stops no later than any later chunk starts. */
  lemma {:induction false} ChunksOrdered(tot: int, nSplit: int, i: int, j: int)
    requires 0 <= tot && 0 < nSplit && 0 <= i <= j < nSplit
    ensures Chunk(tot, nSplit, i).start <= Chunk(tot, nSplit, j).start
    ensures Chunk(tot, nSplit, i).stop <= Chunk(tot, nSplit, j).stop
    ensures i < j ==> Chunk(tot, nSplit, i).stop <= Chunk(tot, nSplit, j).start
  {
    QuotientNonNegative(tot, nSplit);
    ChunkSize(tot, nSplit, j);
    if i < j {
      ChunksOrdered(tot, nSplit, i, j - 1);
      ChunksContiguous(tot, nSplit, j - 1);
      ChunkSize(tot, nSplit, j - 1);
    }
  }

  /** The slices of `s` for chunks `0 .. m-1`, concatenated in index order. */
  function Pieces<T>(s: seq<T>, nSplit: int, m: int): seq<T>
    requires 0 < nSplit && 0 <= m <= nSplit
    decreases m
  {
    if m == 0 then []
    else
      ChunkWithinTotal(|s|, nSplit, m - 1);
      var c := Chunk(|s|, nSplit, m - 1);
      Pieces(s, nSplit, m - 1) + s[c.start..c.stop]
  }

  /** The first `m` chunks of `s`, in order, form the prefix of `s` that ends
      where chunk `m - 1` stops. */
  lemma {:induction false} PiecesArePrefix<T>(s: seq<T>, nSplit: int, m: int)
    requires 0 < nSplit && 1 <= m <= nSplit
    ensures Chunk(|s|, nSplit, m - 1).stop <= |s| && Pieces(s, nSplit, m) == s[..Chunk(|s|, nSplit, m - 1).stop]
  {
    ChunkWithinTotal(|s|, nSplit, m - 1);
    var c := Chunk(|s|, nSplit, m - 1);
    assert Pieces(s, nSplit, m) == Pieces(s, nSplit, m - 1) + s[c.start..c.stop];
    if m == 1 {
      ChunksSpanTotal(|s|, nSplit);
      assert c.start == 0;
    } else {
      PiecesArePrefix(s, nSplit, m - 1);
      ChunksContiguous(|s|, nSplit, m - 2);
      assert Pieces(s, nSplit, m - 1) == s[..c.start];
      assert s[..c.start] + s[c.start..c.stop] == s[..c.stop];
    }
  }

  /** Coverage: the chunks, taken in index order, reassemble the whole
      sequence, so every position belongs to exactly one chunk. */
  lemma ChunksCoverSequence<T>(s: seq<T>, nSplit: int)
    requires 0 < nSplit
    ensures Pieces(s, nSplit, nSplit) == s
  {
    PiecesArePrefix(s, nSplit, nSplit);
    ChunksSpanTotal(|s|, nSplit);
    assert s[..|s|] == s;
  }

  /** With fewer items than chunks, the first `tot` chunks hold one item each
      and the rest are empty ranges at `tot`. */
  lemma FewItemsLeaveEmptyChunks(tot: int, nSplit: int, index: int)
    requires 0 <= tot < nSplit && 0 <= index < nSplit
    ensures Chunk(tot, nSplit, index) == if index < tot then Range(index, index + 1) else Range(tot, tot)
  {
    SmallQuotient(tot, nSplit);
    if index < tot {
      assert (0 + 1) * index == index && (0 + 1) * (index + 1) == index + 1;
    } else {
      assert (0 + 1) * tot + 0 * (index - tot) == tot;
      assert (0 + 1) * tot + 0 * (index - tot + 1) == tot;
    }
  }

  lemma SmallQuotient(tot: int, nSplit: int)
    requires 0 <= tot < nSplit
    ensures tot / nSplit == 0 && tot % nSplit == tot
  {
  }

  /** With at least two chunks and two items, the first chunk holds fewer
      items than the whole. */
  lemma FirstChunkIsPartial(tot: int, nSplit: int)
    requires 2 <= nSplit && 2 <= tot
    ensures Chunk(tot, nSplit, 0).Size() < tot
  {
    ChunkSize(tot, nSplit, 0);
    var d, r := tot / nSplit, tot % nSplit;
    var size := Chunk(tot, nSplit, 0).Size();
    assert size <= d + 1 && (size == d + 1 ==> 0 < r);
    QuotientBound(tot, nSplit);
  }

  lemma QuotientBound(tot: int, nSplit: int)
    requires 2 <= nSplit && 0 <= tot
    ensures 0 <= tot / nSplit && 2 * (tot / nSplit) + tot % nSplit <= tot
  {
    var d := tot / nSplit;
    assert tot == d * nSplit + tot % nSplit;
    assert d * nSplit >= d * 2;
  }

  /** Splitting into as many chunks as items gives one item per chunk. */
  lemma OneItemPerChunk(n: int, index: int)
    requires 0 <= index < n
    ensures Chunk(n, n, index) == Range(index, index + 1)
  {
    assert n / n == 1 && n % n == 0;
  }

  /** A single chunk is the whole range. */
  lemma SingleChunkIsWhole(tot: int)
    ensures Chunk(tot, 1, 0) == Range(0, tot)
  {
    ChunksSpanTotal(tot, 1);
  }

  /** Ten items in three chunks: sizes 4, 3, 3. */
  lemma TenInThree()
    ensures Chunk(10, 3, 0) == Range(0, 4)
    ensures Chunk(10, 3, 1) == Range(4, 7)
    ensures Chunk(10, 3, 2) == Range(7, 10)
  {
  }
}
