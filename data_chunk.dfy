/**
 * The chunk record the scheduler works with. Its constructor (which parses an
 * object key into a block range and derives the identifier) lives in a file
 * that is not part of this model, so a chunk is just its fields here.
 */
module DataChunks {

  /** Identifier derived from the dataset and the block range. */
  type ChunkId = string

  /** Inclusive block range `begin..=end`. */
  datatype BlockRange = BlockRange(begin: nat, end: nat)

  datatype DataChunk = DataChunk(
    id: ChunkId,
    datasetUrl: string,
    blockRange: BlockRange,
    sizeBytes: nat)

  /** Total size of a sequence of chunks, summed from the front. */
  function SumSizes(chunks: seq<DataChunk>): nat
  {
    if chunks == [] then 0 else chunks[0].sizeBytes + SumSizes(chunks[1..])
  }

  /** The total of a concatenation is the sum of the totals. */
  lemma {:induction false} SumSizesAppend(a: seq<DataChunk>, b: seq<DataChunk>)
    ensures SumSizes(a + b) == SumSizes(a) + SumSizes(b)
  {
    if a == [] {
      assert a + b == b;
    } else {
      assert (a + b)[1..] == a[1..] + b;
      SumSizesAppend(a[1..], b);
    }
  }

  /** No chunk is larger than the total it belongs to. */
  lemma {:induction false} SumSizesBound(chunks: seq<DataChunk>)
    ensures forall i :: 0 <= i < |chunks| ==> chunks[i].sizeBytes <= SumSizes(chunks)
  {
    if chunks != [] {
      SumSizesBound(chunks[1..]);
      forall i | 0 < i < |chunks|
        ensures chunks[i].sizeBytes <= SumSizes(chunks)
      {
        assert chunks[i] == chunks[1..][i - 1];
      }
    }
  }
}
