/** The two byte totals the pipeline reports once the image has been
    streamed: the bytes the disk knows, and the bytes the block map says
    must be written. Both are a `map` followed by a `reduce((a, b) => a + b)`
    that has no initial value. */
module Accounting {

  /** An inclusive range `[start, end]`: a known chunk in bytes, or a
      block-map range in blocks. Nothing forces `start <= end`. */
  datatype Range = Range(start: int, end: int)

  /** `reduce` on an empty array without an initial value throws. */
  datatype ReduceError = EmptyWithoutInitialValue

  datatype Result<T> = Ok(value: T) | Err(error: ReduceError)

  /** The block size the block map is requested with. */
  const BlockSize: int := 512

  // ----- Summation, as written and as specified -----

  /** `xs.reduce((a, b) => a + b)`: the first element seeds the accumulator
      and the rest are added from left to right. */
  function ReduceAdd(xs: seq<int>): Result<int> {
    if xs == [] then Err(EmptyWithoutInitialValue) else Ok(FoldAdd(xs[0], xs[1..]))
  }

  function FoldAdd(acc: int, xs: seq<int>): int
    decreases xs
  {
    if xs == [] then acc else FoldAdd(acc + xs[0], xs[1..])
  }

  /** Reference sum. */
  function Sum(xs: seq<int>): int {
    if xs == [] then 0 else xs[0] + Sum(xs[1..])
  }

  lemma {:induction false} FoldAddIsSum(acc: int, xs: seq<int>)
    ensures FoldAdd(acc, xs) == acc + Sum(xs)
    decreases xs
  {
    if xs != [] {
      FoldAddIsSum(acc + xs[0], xs[1..]);
    }
  }

  /** The reduction fails exactly on the empty array and otherwise is the sum. */
  lemma ReduceAddIsSum(xs: seq<int>)
    ensures ReduceAdd(xs) == if xs == [] then Err(EmptyWithoutInitialValue) else Ok(Sum(xs))
  {
    if xs != [] {
      FoldAddIsSum(xs[0], xs[1..]);
    }
  }

  // ----- Known bytes -----

  /** The length the pipeline credits to a chunk: clamped at zero, so an
      inverted chunk counts for nothing. */
  function ChunkLength(c: Range): int {
    if c.end - c.start + 1 > 0 then c.end - c.start + 1 else 0
  }

  /** `knownChunks.map(chunk => Math.max(chunk.end - chunk.start + 1, 0))` */
  function ChunkLengths(chunks: seq<Range>): seq<int> {
    seq(|chunks|, i requires 0 <= i < |chunks| => ChunkLength(chunks[i]))
  }

  /** `knownLength` */
  function KnownLength(chunks: seq<Range>): Result<int> {
    ReduceAdd(ChunkLengths(chunks))
  }

  /** Reference definition: the lengths of the ranges, each clamped at zero,
      added up. For the known chunks this is the number of known bytes. */
  function ClampedTotal(chunks: seq<Range>): int {
    if chunks == [] then 0 else ChunkLength(chunks[0]) + ClampedTotal(chunks[1..])
  }

  lemma {:induction false} ClampedTotalIsSum(chunks: seq<Range>)
    ensures Sum(ChunkLengths(chunks)) == ClampedTotal(chunks)
  {
    if chunks != [] {
      assert ChunkLengths(chunks)[1..] == ChunkLengths(chunks[1..]);
      ClampedTotalIsSum(chunks[1..]);
    }
  }

  lemma {:induction false} ClampedTotalNonNegative(chunks: seq<Range>)
    ensures ClampedTotal(chunks) >= 0
  {
    if chunks != [] {
      ClampedTotalNonNegative(chunks[1..]);
    }
  }

  lemma {:induction false} ClampedTotalAppend(a: seq<Range>, b: seq<Range>)
    ensures ClampedTotal(a + b) == ClampedTotal(a) + ClampedTotal(b)
  {
    if a != [] {
      assert (a + b)[0] == a[0];
      assert (a + b)[1..] == a[1..] + b;
      ClampedTotalAppend(a[1..], b);
    } else {
      assert a + b == b;
    }
  }

  /** `knownLength` fails on an empty chunk list; otherwise it is the sum of
      the clamped chunk lengths, never negative. */
  lemma KnownLengthSpec(chunks: seq<Range>)
    ensures KnownLength(chunks) == if chunks == [] then Err(EmptyWithoutInitialValue) else Ok(ClampedTotal(chunks))
    ensures KnownLength(chunks).Ok? ==> KnownLength(chunks).value >= 0
  {
    ReduceAddIsSum(ChunkLengths(chunks));
    ClampedTotalIsSum(chunks);
    ClampedTotalNonNegative(chunks);
  }

  /** An inverted chunk, wherever it sits, adds nothing to `knownLength`.
      Its presence alone still makes the list non-empty, so the reduction
      succeeds even when it is the only chunk. */
  lemma InvertedChunkIgnored(before: seq<Range>, c: Range, after: seq<Range>)
    requires c.end < c.start
    ensures KnownLength(before + [c] + after) == Ok(ClampedTotal(before + after))
    ensures before + after != [] ==> KnownLength(before + [c] + after) == KnownLength(before + after)
  {
    KnownLengthSpec(before + [c] + after);
    KnownLengthSpec(before + after);
    ClampedTotalAppend(before + [c], after);
    ClampedTotalAppend(before, [c]);
    ClampedTotalAppend(before, after);
  }

  /** Well-formed chunks in ascending order, pairwise disjoint, inside `[lo, hi)`:
      the shape of the disk's chunk list. */
  predicate SortedDisjointWithin(chunks: seq<Range>, lo: int, hi: int) {
    (forall i :: 0 <= i < |chunks| ==> lo <= chunks[i].start <= chunks[i].end < hi) &&
    (forall i, j :: 0 <= i < j < |chunks| ==> chunks[i].end < chunks[j].start)
  }

  lemma {:induction false} ClampedTotalWithin(chunks: seq<Range>, lo: int, hi: int)
    requires lo <= hi
    requires SortedDisjointWithin(chunks, lo, hi)
    ensures ClampedTotal(chunks) <= hi - lo
  {
    if chunks != [] {
      var c := chunks[0];
      var rest := chunks[1..];
      assert SortedDisjointWithin(rest, c.end + 1, hi) by {
        forall i | 0 <= i < |rest| ensures c.end + 1 <= rest[i].start {
          assert chunks[0].end < chunks[i + 1].start;
        }
      }
      ClampedTotalWithin(rest, c.end + 1, hi);
    }
  }

  /** For chunks of a disk of `capacity` bytes, kept sorted and disjoint,
      `knownLength` never exceeds the capacity. */
  lemma KnownLengthAtMostCapacity(chunks: seq<Range>, capacity: int)
    requires chunks != []
    requires SortedDisjointWithin(chunks, 0, capacity)
    ensures KnownLength(chunks).Ok? && KnownLength(chunks).value <= capacity
  {
    KnownLengthSpec(chunks);
    ClampedTotalWithin(chunks, 0, capacity);
  }

  // ----- Bytes to write -----

  /** `bmap.ranges.map(range => (range.end - range.start + 1) * blockSize)` */
  function RangeBytes(ranges: seq<Range>): seq<int> {
    seq(|ranges|, i requires 0 <= i < |ranges| => (ranges[i].end - ranges[i].start + 1) * BlockSize)
  }

  /** `bytesToWrite` */
  function BytesToWrite(ranges: seq<Range>): Result<int> {
    ReduceAdd(RangeBytes(ranges))
  }

  /** Reference definition: the number of blocks the ranges span. No clamping:
      an inverted range counts negatively, as it does in the pipeline. */
  function BlockCount(ranges: seq<Range>): int {
    if ranges == [] then 0 else (ranges[0].end - ranges[0].start + 1) + BlockCount(ranges[1..])
  }

  lemma {:induction false} RangeBytesIsScaledCount(ranges: seq<Range>)
    ensures Sum(RangeBytes(ranges)) == BlockSize * BlockCount(ranges)
  {
    if ranges != [] {
      assert RangeBytes(ranges)[1..] == RangeBytes(ranges[1..]);
      RangeBytesIsScaledCount(ranges[1..]);
    }
  }

  /** `bytesToWrite` fails on an empty range list; otherwise it is the block
      size times the number of blocks covered, so a whole number of blocks. */
  lemma BytesToWriteSpec(ranges: seq<Range>)
    ensures BytesToWrite(ranges) == if ranges == [] then Err(EmptyWithoutInitialValue)
                                     else Ok(BlockSize * BlockCount(ranges))
    ensures BytesToWrite(ranges).Ok? ==> BytesToWrite(ranges).value % BlockSize == 0
  {
    ReduceAddIsSum(RangeBytes(ranges));
    RangeBytesIsScaledCount(ranges);
  }

  lemma {:induction false} BlockCountMatchesClampedTotal(ranges: seq<Range>)
    requires forall i :: 0 <= i < |ranges| ==> ranges[i].start <= ranges[i].end
    ensures BlockCount(ranges) == ClampedTotal(ranges)
    ensures BlockCount(ranges) >= |ranges|
  {
    if ranges != [] {
      BlockCountMatchesClampedTotal(ranges[1..]);
    }
  }

  /** A block map of well-formed, sorted, disjoint ranges over the first
      `blocks` blocks asks for at least one block per range and at most the
      whole image. */
  lemma BytesToWriteBounds(ranges: seq<Range>, blocks: int)
    requires ranges != []
    requires SortedDisjointWithin(ranges, 0, blocks)
    ensures BytesToWrite(ranges).Ok?
    ensures BlockSize * |ranges| <= BytesToWrite(ranges).value <= BlockSize * blocks
  {
    BytesToWriteSpec(ranges);
    BlockCountMatchesClampedTotal(ranges);
    ClampedTotalWithin(ranges, 0, blocks);
  }

  /** Known chunks `[0, 1023]` and `[2048, 4095]`, block map `[0, 1]` and
      `[4, 7]`: 3072 bytes known and 3072 bytes to write. */
  lemma ExampleTotals()
    ensures KnownLength([Range(0, 1023), Range(2048, 4095)]) == Ok(3072)
    ensures BytesToWrite([Range(0, 1), Range(4, 7)]) == Ok(3072)
  {
  }
}
