/**
 How samples map to chunks (section 8.7.4 of ISO/IEC 14496-12): the meaning of
 the sample-to-chunk entries, independent of the passes that expand them.
 */
module ChunkMap {
  import opened Bytes

  datatype StcEntry = StcEntry(firstChunk: u32, samplesPerChunk: u32, description: u32)

  /** Entries start at chunk 1 or later, never go back, and stay within the chunk table. */
  predicate WellFormed(es: seq<StcEntry>, chunkCount: u32)
  {
    && (forall i :: 0 <= i < |es| ==> 1 <= es[i].firstChunk <= chunkCount + 1)
    && (forall i, j :: 0 <= i < j < |es| ==> es[i].firstChunk <= es[j].firstChunk)
  }

  /** Samples in the chunk of 0-based index `chunk`: the last entry that has started decides. */
  function PerChunk(es: seq<StcEntry>, chunk: nat): u32
  {
    if es == [] then 0
    else if es[|es| - 1].firstChunk <= chunk + 1 then es[|es| - 1].samplesPerChunk
    else PerChunk(es[..|es| - 1], chunk)
  }

  /** The index of the first sample of a chunk. */
  function FirstSample(es: seq<StcEntry>, chunk: nat): nat
  {
    if chunk == 0 then 0 else FirstSample(es, chunk - 1) + PerChunk(es, chunk - 1)
  }

  function TotalSize(sizes: seq<u32>): nat
  {
    if sizes == [] then 0 else TotalSize(sizes[..|sizes| - 1]) + sizes[|sizes| - 1]
  }

  /** A chunk between two consecutive entries takes its count from the first of them. */
  lemma {:induction false} PerChunkBetween(es: seq<StcEntry>, i: nat, chunk: nat)
    requires i <= |es|
    requires forall a, b :: 0 <= a < b < |es| ==> es[a].firstChunk <= es[b].firstChunk
    requires i < |es| ==> chunk + 1 < es[i].firstChunk
    requires i > 0 ==> es[i - 1].firstChunk <= chunk + 1
    ensures PerChunk(es, chunk) == if i == 0 then 0 else es[i - 1].samplesPerChunk
    decreases |es|
  {
    if i < |es| {
      PerChunkBetween(es[..|es| - 1], i, chunk);
    }
  }

  lemma {:induction false} FirstSampleMonotone(es: seq<StcEntry>, a: nat, b: nat)
    requires a <= b
    ensures FirstSample(es, a) <= FirstSample(es, b)
  {
    if a < b { FirstSampleMonotone(es, a, b - 1); }
  }

  lemma AddModulo(a: int, b: int)
    ensures (a % TWO32 + b) % TWO32 == (a + b) % TWO32
  {
  }

  /** A run of chunks with the same count: the product the counting pass adds. */
  lemma {:induction false} FirstSampleRun(es: seq<StcEntry>, a: nat, b: nat, n: u32)
    requires a <= b
    requires forall c :: a <= c < b ==> PerChunk(es, c) == n
    ensures FirstSample(es, b) == FirstSample(es, a) + (b - a) * n
  {
    if a < b {
      FirstSampleRun(es, a, b - 1, n);
      assert (b - a) * n == (b - 1 - a) * n + n;
    }
  }

  /** What one turn of the counting pass adds, in the 32-bit arithmetic it uses. */
  lemma CountingStep(es: seq<StcEntry>, chunkCount: u32, i: nat, a: nat, b: nat, chunks: nat, per: u32)
    requires WellFormed(es, chunkCount) && i <= |es| && a <= b && chunks == b - a
    requires a == if i == 0 then 0 else es[i - 1].firstChunk - 1
    requires b == if i == |es| then chunkCount else es[i].firstChunk - 1
    requires per == if i == 0 then 0 else es[i - 1].samplesPerChunk
    ensures (FirstSample(es, a) % TWO32 + chunks * per) % TWO32 == FirstSample(es, b) % TWO32
    ensures forall c :: a <= c < b ==> PerChunk(es, c) == per
  {
    forall c | a <= c < b ensures PerChunk(es, c) == per {
      PerChunkBetween(es, i, c);
    }
    FirstSampleRun(es, a, b, per);
    AddModulo(FirstSample(es, a), chunks * per);
  }

  // ---------- counting, whatever the entries say ----------

  /** The chunk at which the last of the first `i` entries starts; chunks count from 1. */
  function LastFirst(es: seq<StcEntry>, i: nat): u32
    requires i <= |es|
  {
    if i == 0 then 1 else es[i - 1].firstChunk
  }

  function LastPer(es: seq<StcEntry>, i: nat): u32
    requires i <= |es|
  {
    if i == 0 then 0 else es[i - 1].samplesPerChunk
  }

  /** The samples before entry `i`, by the differences between the entries, modulo 2^32. */
  function CountedBefore(es: seq<StcEntry>, i: nat): u32
    requires i <= |es|
  {
    if i == 0 then 0
    else (CountedBefore(es, i - 1) + (es[i - 1].firstChunk - LastFirst(es, i - 1)) % TWO32 * LastPer(es, i - 1)) % TWO32
  }

  /** The number of samples the chunks are taken to hold. */
  function Counted(es: seq<StcEntry>, chunkCount: u32): u32
  {
    (CountedBefore(es, |es|) + (chunkCount - LastFirst(es, |es|) + 1) % TWO32 * LastPer(es, |es|)) % TWO32
  }

  lemma {:induction false} CountedBeforeEntry(es: seq<StcEntry>, chunkCount: u32, i: nat)
    requires WellFormed(es, chunkCount) && i <= |es|
    ensures LastFirst(es, i) >= 1 && CountedBefore(es, i) == FirstSample(es, LastFirst(es, i) - 1) % TWO32
  {
    hide FirstSample, PerChunk, CountedBefore;
    CountedAt(es, i);
    if i == 0 {
      NoSamplesYet(es);
    } else {
      CountedBeforeEntry(es, chunkCount, i - 1);
      var a: nat, chunks: nat := LastFirst(es, i - 1) - 1, es[i - 1].firstChunk - LastFirst(es, i - 1);
      assert chunks % TWO32 == chunks;
      CountingStep(es, chunkCount, i - 1, a, es[i - 1].firstChunk - 1, chunks, LastPer(es, i - 1));
    }
  }

  lemma CountedAt(es: seq<StcEntry>, i: nat)
    requires i <= |es|
    ensures CountedBefore(es, i) ==
            if i == 0 then 0
            else (CountedBefore(es, i - 1) + (es[i - 1].firstChunk - LastFirst(es, i - 1)) % TWO32 * LastPer(es, i - 1)) % TWO32
  {
  }

  lemma NoSamplesYet(es: seq<StcEntry>)
    ensures FirstSample(es, 0) == 0
  {
  }

  /** On entries that are in order and within the chunk table, that is the number of samples there are, modulo 2^32. */
  lemma CountedSamples(es: seq<StcEntry>, chunkCount: u32)
    requires WellFormed(es, chunkCount)
    ensures Counted(es, chunkCount) == FirstSample(es, chunkCount) % TWO32
  {
    hide FirstSample, PerChunk, CountedBefore, Counted;
    var n := |es|;
    CountedBeforeEntry(es, chunkCount, n);
    var a: nat, chunks: nat := LastFirst(es, n) - 1, chunkCount - LastFirst(es, n) + 1;
    assert chunks <= chunkCount;
    CountingStep(es, chunkCount, n, a, chunkCount, chunks, LastPer(es, n));
    CountedOf(es, chunkCount, chunks);
  }

  lemma CountedOf(es: seq<StcEntry>, chunkCount: u32, chunks: nat)
    requires chunks == chunkCount - LastFirst(es, |es|) + 1 && chunks < TWO32
    ensures Counted(es, chunkCount) == (CountedBefore(es, |es|) + chunks * LastPer(es, |es|)) % TWO32
  {
    hide CountedBefore, LastPer, LastFirst;
    assert chunks % TWO32 == chunks;
  }

  /** Where ISO/IEC 14496-12 puts the samples of a chunk: after the earlier samples of that chunk. */
  predicate OffsetsOfChunk(es: seq<StcEntry>, chunkOffsets: seq<u64>, sizes: seq<u32>, offsets: seq<u64>, c: nat)
    requires c < |chunkOffsets|
  {
    && FirstSample(es, c + 1) <= |sizes| <= |offsets|
    && var first := FirstSample(es, c);
    forall n :: first <= n < first + PerChunk(es, c) ==>
      offsets[n] == (chunkOffsets[c] + TotalSize(sizes[first..n])) % TWO64
  }

  /** One sample per chunk, as the muxer writes it: samples and chunks share their offsets. */
  lemma {:induction false} OnePerChunk(chunk: nat)
    ensures PerChunk([StcEntry(1, 1, 1)], chunk) == 1
    ensures FirstSample([StcEntry(1, 1, 1)], chunk) == chunk
  {
    if chunk > 0 { OnePerChunk(chunk - 1); }
  }
}
