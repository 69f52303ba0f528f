/**
 A track of the demuxer: the expansion of its tables into the offset and the
 decoding time of every sample, the searches over them, and the seek and read
 state.
 */
module DemuxTrack {
  import opened Bytes
  import opened Wrappers
  import opened TimeTable
  import opened ChunkMap
  import opened Search
  import Timescale

  datatype Status = Ok | Eproto | Eoverflow

  datatype SeekResult = Moved | Nowhere | DividesByZero

  datatype ReadStatus = Read | AtEnd | ShortRead | BufferTooSmall

  datatype Sample = Sample(size: u32, offset: u64, data: seq<byte>, silent: bool, sync: bool,
                           dts: u64, nextDts: u64, prevSyncDts: u64, nextSyncDts: u64)

  /** Without a buffer nothing is read; with one, the sample must fit it and lie in the file. */
  predicate BufferSuits(file: seq<byte>, room: Option<nat>, offset: u64, size: u32)
  {
    room.Some? ==> size <= room.value && (size > 0 ==> offset + size <= |file|)
  }

  predicate DataOf(file: seq<byte>, offset: u64, size: u32, data: seq<byte>)
  {
    if size == 0 then data == [] else offset + size <= |file| && data == file[offset..offset + size]
  }

  /** The chunk part of `mp4_tracks_build`, first pass: how many samples the chunks hold, in 32-bit arithmetic. */
  method CountSamples(es: seq<StcEntry>, chunkCount: u32) returns (count: u32)
    ensures count == Counted(es, chunkCount)
    ensures WellFormed(es, chunkCount) ==> count == FirstSample(es, chunkCount) % TWO32
  {
    hide FirstSample, PerChunk;
    var lastFirst: u32, lastPer: u32, total: u32 := 1, 0, 0;
    for i := 0 to |es|
      invariant lastFirst == LastFirst(es, i) && lastPer == LastPer(es, i) && total == CountedBefore(es, i)
    {
      var chunks := (es[i].firstChunk - lastFirst) % TWO32;
      total := (total + chunks * lastPer) % TWO32;
      lastFirst, lastPer := es[i].firstChunk, es[i].samplesPerChunk;
    }
    var chunks := (chunkCount - lastFirst + 1) % TWO32;
    count := (total + chunks * lastPer) % TWO32;
    if WellFormed(es, chunkCount) { CountedSamples(es, chunkCount); }
  }

  /** Everything before chunk `c` has its offset. */
  ghost predicate Filled(es: seq<StcEntry>, chunkOffsets: seq<u64>, sizes: seq<u32>, offsets: seq<u64>, c: nat)
    requires c <= |chunkOffsets|
  {
    forall b :: 0 <= b < c ==> OffsetsOfChunk(es, chunkOffsets, sizes, offsets, b)
  }

  /** The innermost loop: the samples of one chunk. */
  method FillChunk(ghost es: seq<StcEntry>, chunkOffsets: seq<u64>, sizes: seq<u32>, c: nat, per: u32, first: nat, offsets: array<u64>)
    requires c < |chunkOffsets| && offsets.Length == |sizes|
    requires per == PerChunk(es, c) && first == FirstSample(es, c) && first + per <= |sizes|
    requires |sizes| < TWO32 && Filled(es, chunkOffsets, sizes, offsets[..], c)
    modifies offsets
    ensures Filled(es, chunkOffsets, sizes, offsets[..], c + 1)
  {
    var inChunk: int := 0;
    for k := 0 to per
      invariant inChunk == TotalSize(sizes[first..first + k])
      invariant forall j :: 0 <= j < first ==> offsets[j] == old(offsets[j])
      invariant forall n :: first <= n < first + k ==> offsets[n] == (chunkOffsets[c] + TotalSize(sizes[first..n])) % TWO64
    {
      offsets[first + k] := (chunkOffsets[c] + inChunk) % TWO64;
      assert sizes[first..first + k + 1][..k] == sizes[first..first + k];
      inChunk := inChunk + sizes[first + k];
    }
    forall b | 0 <= b < c + 1
      ensures OffsetsOfChunk(es, chunkOffsets, sizes, offsets[..], b)
    {
      if b < c {
        FirstSampleMonotone(es, b + 1, c);
        assert OffsetsOfChunk(es, chunkOffsets, sizes, old(offsets[..]), b);
      }
    }
  }

  /** All the chunks of `mp4_tracks_build`, second pass. */
  method FillOffsets(es: seq<StcEntry>, chunkOffsets: seq<u64>, sizes: seq<u32>) returns (offsets: array<u64>)
    requires |chunkOffsets| < TWO32 && |sizes| < TWO32
    requires WellFormed(es, |chunkOffsets|) && FirstSample(es, |chunkOffsets|) == |sizes|
    ensures fresh(offsets) && offsets.Length == |sizes|
    ensures Filled(es, chunkOffsets, sizes, offsets[..], |chunkOffsets|)
  {
    offsets := new u64[|sizes|];
    var lastFirst: int, lastPer: u32 := 1, 0;
    var chunk, n := 0, 0;
    for i := 0 to |es|
      invariant lastFirst == if i == 0 then 1 else es[i - 1].firstChunk
      invariant lastPer == if i == 0 then 0 else es[i - 1].samplesPerChunk
      invariant chunk == lastFirst - 1 <= |chunkOffsets| && n == FirstSample(es, chunk)
      invariant Filled(es, chunkOffsets, sizes, offsets[..], chunk)
    {
      var chunks := es[i].firstChunk - lastFirst;
      CountingStep(es, |chunkOffsets|, i, lastFirst - 1, es[i].firstChunk - 1, chunks, lastPer);
      n := FillChunks(es, chunkOffsets, sizes, chunk, chunks, lastPer, n, offsets);
      chunk := chunk + chunks;
      lastFirst, lastPer := es[i].firstChunk, es[i].samplesPerChunk;
    }
    var chunks := |chunkOffsets| - lastFirst + 1;
    CountingStep(es, |chunkOffsets|, |es|, lastFirst - 1, |chunkOffsets|, chunks, lastPer);
    n := FillChunks(es, chunkOffsets, sizes, chunk, chunks, lastPer, n, offsets);
  }

  /** The middle loop: a run of chunks holding the same number of samples. */
  method FillChunks(ghost es: seq<StcEntry>, chunkOffsets: seq<u64>, sizes: seq<u32>, chunk: nat, chunks: nat, per: u32, first: nat, offsets: array<u64>)
    returns (next: nat)
    requires chunk + chunks <= |chunkOffsets| && offsets.Length == |sizes| < TWO32
    requires forall c :: chunk <= c < chunk + chunks ==> PerChunk(es, c) == per
    requires first == FirstSample(es, chunk) && FirstSample(es, |chunkOffsets|) == |sizes|
    requires Filled(es, chunkOffsets, sizes, offsets[..], chunk)
    modifies offsets
    ensures next == FirstSample(es, chunk + chunks)
    ensures Filled(es, chunkOffsets, sizes, offsets[..], chunk + chunks)
  {
    next := first;
    for j := 0 to chunks
      invariant next == FirstSample(es, chunk + j)
      invariant Filled(es, chunkOffsets, sizes, offsets[..], chunk + j)
    {
      FirstSampleMonotone(es, chunk + j + 1, |chunkOffsets|);
      FillChunk(es, chunkOffsets, sizes, chunk + j, per, next, offsets);
      next := next + per;
    }
  }

  /** The time part of `mp4_tracks_build`: the number of samples the entries announce. */
  method CountTimes(es: seq<TtsEntry>) returns (count: u32)
    ensures count == |Deltas(es)| % TWO32
  {
    count := 0;
    for i := 0 to |es|
      invariant count == |Deltas(es[..i])| % TWO32
    {
      DeltasOfEntry(es, i);
      AddModulo(|Deltas(es[..i])|, es[i].count);
      count := (count + es[i].count) % TWO32;
    }
    assert es[..|es|] == es;
  }

  /** The samples of one entry: the inner loop, with the two checks that stop the expansion. */
  method FillRun(ghost all: seq<u32>, a: array<u64>, first: nat, n: u32, delta: u32, start: u64) returns (status: Status, ts: u64)
    requires first + n <= |all| && forall k :: first <= k < first + n ==> all[k] == delta
    requires start == Sum(all[..first]) && first <= a.Length
    requires forall m :: 0 <= m < first ==> a[m] == Sum(all[..m])
    modifies a
    ensures status.Ok? ==> first + n <= a.Length && ts == Sum(all[..first + n])
    ensures status.Ok? ==> forall m :: 0 <= m < first + n ==> a[m] == Sum(all[..m])
    ensures status.Eproto? ==> a.Length < first + n
    ensures status.Eoverflow? ==> Sum(all[..|all|]) >= TWO64
  {
    ts := start;
    for k := first to first + n
      invariant k <= a.Length && ts == Sum(all[..k])
      invariant forall m :: 0 <= m < k ==> a[m] == Sum(all[..m])
    {
      if k >= a.Length { return Eproto, ts; }
      a[k] := ts;
      SumSnoc(all, k);
      if delta > TWO64 - 1 - ts {
        SumMonotone(all, k + 1, |all|);
        return Eoverflow, ts;
      }
      ts := ts + delta;
    }
    return Ok, ts;
  }

  /** The decoding times of all the entries. */
  method FillTimes(es: seq<TtsEntry>, count: u32) returns (status: Status, times: seq<u64>)
    requires count == |Deltas(es)| % TWO32
    ensures status.Ok? <==> |Deltas(es)| == count && Sum(Deltas(es)) < TWO64
    ensures status.Ok? ==> times == Times(es)
    ensures status.Eoverflow? ==> Sum(Deltas(es)) >= TWO64
  {
    ghost var all := Deltas(es);
    assert all[..|all|] == all && es[..|es|] == es;
    var a := new u64[count];
    var ts: u64, k := 0, 0;
    for i := 0 to |es|
      invariant k == |Deltas(es[..i])| <= count
      invariant ts == Sum(all[..k])
      invariant forall m :: 0 <= m < k ==> a[m] == Sum(all[..m])
    {
      DeltasOfEntry(es, i);
      status, ts := FillRun(all, a, k, es[i].count, es[i].delta, ts);
      if !status.Ok? { return status, []; }
      k := k + es[i].count;
    }
    return Ok, a[..];
  }

  class Track {
    const id: u32
    const timescale: u32
    const duration: u64
    // as read from the file
    var sampleSize: seq<u32>
    var chunkOffset: seq<u64>
    var timeToSample: seq<TtsEntry>
    var sampleToChunk: seq<StcEntry>
    var sync: Option<seq<u32>>
    // as expanded
    var sampleDecodingTime: seq<u64>
    var sampleOffset: seq<u64>
    // reading state
    var nextSample: nat
    var pendingSeekTime: u64
    ghost var target: nat  // the sample the last seek settled on

    constructor (id: u32, timescale: u32, duration: u64, sampleSize: seq<u32>, chunkOffset: seq<u64>,
                 timeToSample: seq<TtsEntry>, sampleToChunk: seq<StcEntry>, sync: Option<seq<u32>>)
      ensures this.id == id && this.timescale == timescale && this.duration == duration
      ensures this.sampleSize == sampleSize && this.chunkOffset == chunkOffset
      ensures this.timeToSample == timeToSample && this.sampleToChunk == sampleToChunk && this.sync == sync
      ensures nextSample == 0 && pendingSeekTime == 0 && target == 0
    {
      this.id, this.timescale, this.duration := id, timescale, duration;
      this.sampleSize, this.chunkOffset := sampleSize, chunkOffset;
      this.timeToSample, this.sampleToChunk, this.sync := timeToSample, sampleToChunk, sync;
      sampleDecodingTime, sampleOffset := [], [];
      nextSample, pendingSeekTime, target := 0, 0, 0;
    }

    /**
     Tables of which the first pass counts as many samples as there are sizes have their
     entries in order and within the chunk table: others would take the second pass
     outside of the tables.
     */
    predicate Readable()
      reads this
    {
      && |sampleSize| < TWO32 && |chunkOffset| < TWO32
      && (sampleSize != [] && Counted(sampleToChunk, |chunkOffset|) == |sampleSize| ==>
            WellFormed(sampleToChunk, |chunkOffset|) && FirstSample(sampleToChunk, |chunkOffset|) < TWO32)
    }

    /** The tables agree on the number of samples, and the times fit 64 bits. */
    predicate Consistent()
      reads this
    {
      && sampleSize != [] && |chunkOffset| < TWO32 && Counted(sampleToChunk, |chunkOffset|) == |sampleSize|
      && |Deltas(timeToSample)| == |sampleSize|
      && Sum(Deltas(timeToSample)) < TWO64
    }

    /** Expansion succeeds exactly on consistent tables, and then gives every sample its place and time. */
    method Build() returns (status: Status)
      requires Readable()
      modifies `sampleOffset, `sampleDecodingTime
      ensures status.Ok? <==> Consistent()
      ensures status.Ok? ==> sampleDecodingTime == Times(timeToSample)
      ensures status.Ok? ==> |sampleOffset| == |sampleSize|
      ensures status.Ok? ==> Filled(sampleToChunk, chunkOffset, sampleSize, sampleOffset, |chunkOffset|)
    {
      hide Counted, FirstSample;
      var count := CountSamples(sampleToChunk, |chunkOffset|);
      if count != |sampleSize| || count == 0 { return Eproto; }
      var offsets := FillOffsets(sampleToChunk, chunkOffset, sampleSize);
      sampleOffset := offsets[..];
      count := CountTimes(timeToSample);
      if count != |sampleSize| { return Eproto; }
      status, sampleDecodingTime := FillTimes(timeToSample, count);
    }

    /** What the searches and the reading state rely on. */
    ghost predicate Valid()
      reads this
    {
      && 0 < |sampleSize| == |sampleDecodingTime| == |sampleOffset| < TWO32
      && sampleDecodingTime[0] == 0 && NonDecreasing(sampleDecodingTime)
      && SortedSync(sync)
      && target < |sampleDecodingTime|
      && (pendingSeekTime != 0 ==> pendingSeekTime == sampleDecodingTime[target])
      && (pendingSeekTime == 0 ==> sampleDecodingTime[target] <= TimeAt(nextSample))
    }

    /** The time of a sample; past the end, the time of the last one. */
    ghost function TimeAt(i: nat): u64
      reads this
      requires |sampleDecodingTime| > 0
    {
      if i < |sampleDecodingTime| then sampleDecodingTime[i] else sampleDecodingTime[|sampleDecodingTime| - 1]
    }

    /** A freshly built track with sorted sync entries is ready for reading. */
    lemma BuiltIsValid()
      requires Consistent() && |sampleSize| < TWO32 && SortedSync(sync)
      requires sampleDecodingTime == Times(timeToSample) && |sampleOffset| == |sampleSize|
      requires nextSample == 0 && pendingSeekTime == 0 && target == 0
      ensures Valid()
    {
      var d := Deltas(timeToSample);
      assert d[..0] == [];
      forall i, j | 0 <= i < j < |sampleDecodingTime|
        ensures sampleDecodingTime[i] <= sampleDecodingTime[j]
      {
        SumMonotone(d, i, j);
      }
    }

    // ---------- searches ----------

    /** Whether a sample is a sync sample, and the sync sample before it when it is not. */
    method IsSyncSample(i: nat) returns (isSync: bool, prev: Option<nat>)
      requires SortedSync(sync)
      ensures isSync == IsSync(sync, i)
      ensures !isSync && prev.Some? ==> prev.value < i && IsSync(sync, prev.value)
      ensures !isSync ==> forall j :: 0 <= j < i && IsSync(sync, j) ==> prev.Some? && j <= prev.value
    {
      if sync.None? { return true, None; }
      var es := sync.value;
      var k := 0;
      while k < |es|
        invariant k <= |es|
        invariant forall m :: 0 <= m < k ==> es[m] - 1 < i
      {
        if es[k] - 1 == i { return true, None; }
        if es[k] - 1 > i {
          return false, if k > 0 then Some(es[k - 1] - 1) else None;
        }
        k := k + 1;
      }
      return false, if k > 0 then Some(es[k - 1] - 1) else None;
    }

    method IsSearchable(i: nat, syncOnly: bool) returns (b: bool)
      requires SortedSync(sync)
      ensures b == (syncOnly ==> IsSync(sync, i))
    {
      if !syncOnly { return true; }
      var prev;
      b, prev := IsSyncSample(i);
    }

    method FindExact(time: u64, syncOnly: bool, start: int) returns (r: Option<nat>)
      requires Valid()
      ensures Found(sampleDecodingTime, sync, Exact, time, syncOnly, ClampStart(|sampleDecodingTime|, Exact, start), r)
    {
      var count := |sampleDecodingTime|;
      var s := if start < 0 then 0 else start;
      if s >= count { s := count - 1; }
      for i := s to count
        invariant forall j :: s <= j < i ==> !Candidate(sampleDecodingTime, sync, Exact, time, syncOnly, j)
      {
        if sampleDecodingTime[i] == time {
          var ok := IsSearchable(i, syncOnly);
          if ok { return Some(i); }
        } else if sampleDecodingTime[i] > time {
          return None;
        }
      }
      return None;
    }

    /** Once the distance grows it never shrinks again: the early exit of the nearest search. */
    lemma DistanceGrows(time: u64, i: nat, j: nat)
      requires NonDecreasing(sampleDecodingTime)
      requires i < j < |sampleDecodingTime|
      requires Distance(sampleDecodingTime[i], time) < Distance(sampleDecodingTime[j], time)
      ensures forall k :: j <= k < |sampleDecodingTime| ==> Distance(sampleDecodingTime[j], time) <= Distance(sampleDecodingTime[k], time)
    {
      assert sampleDecodingTime[i] <= sampleDecodingTime[j];
      forall k | j <= k < |sampleDecodingTime|
        ensures Distance(sampleDecodingTime[j], time) <= Distance(sampleDecodingTime[k], time)
      {
        assert j == k || sampleDecodingTime[j] <= sampleDecodingTime[k];
      }
    }

    /** Sample `best` is the closest of the candidates in `s..i`. */
    ghost predicate ClosestIn(time: u64, syncOnly: bool, s: nat, i: nat, best: Option<nat>)
      reads `sampleDecodingTime, `sync
    {
      && (best.Some? ==> s <= best.value < i && Candidate(sampleDecodingTime, sync, Nearest, time, syncOnly, best.value))
      && forall j :: s <= j < i && Candidate(sampleDecodingTime, sync, Nearest, time, syncOnly, j) ==>
           best.Some? && Distance(sampleDecodingTime[best.value], time) <= Distance(sampleDecodingTime[j], time)
    }

    /** The next sample replaces the closest one only when it is strictly closer. */
    lemma ClosestNext(time: u64, syncOnly: bool, s: nat, i: nat, best: Option<nat>, next: Option<nat>)
      requires ClosestIn(time, syncOnly, s, i, best) && s <= i < |sampleDecodingTime|
      requires var ok := syncOnly ==> IsSync(sync, i);
               if ok && (best.None? || Distance(sampleDecodingTime[i], time) < Distance(sampleDecodingTime[best.value], time))
               then next == Some(i) else next == best
      ensures ClosestIn(time, syncOnly, s, i + 1, next)
    {
    }

    method FindNearest(time: u64, syncOnly: bool, start: int) returns (r: Option<nat>)
      requires Valid()
      requires time < TWO63 && TimesBelow(TWO63)
      ensures Found(sampleDecodingTime, sync, Nearest, time, syncOnly, ClampStart(|sampleDecodingTime|, Nearest, start), r)
    {
      hide NonDecreasing, IsSync, SortedSync;
      var count := |sampleDecodingTime|;
      var s := if start < 0 then 0 else start;
      if s >= count { s := count - 1; }
      r := None;
      var prev: int, min: int := TWO64 - 1, TWO64 - 1;
      ghost var seen: Option<nat> := None;
      var i := s;
      while i < count
        invariant s <= i <= count
        invariant r.None? <==> seen.None?
        invariant seen.None? ==> prev == TWO64 - 1 && min == TWO64 - 1
        invariant seen.Some? ==> s <= seen.value < i && prev == Distance(sampleDecodingTime[seen.value], time)
        invariant seen.Some? ==> r.value < i && min == Distance(sampleDecodingTime[r.value], time)
        invariant ClosestIn(time, syncOnly, s, i, r)
      {
        var ok := IsSearchable(i, syncOnly);
        ghost var best := r;
        if ok {
          var delta := Distance(sampleDecodingTime[i], time);
          if delta < min { min, r := delta, Some(i); }
          ClosestNext(time, syncOnly, s, i, best, r);
          if prev < delta {
            DistanceGrows(time, seen.value, i);
            assert ClosestIn(time, syncOnly, s, count, r);
            return;
          }
          prev, seen := delta, Some(i);
        } else {
          ClosestNext(time, syncOnly, s, i, best, r);
        }
        i := i + 1;
      }
    }

    method FindBackward(time: u64, cmp: TimeCmp, syncOnly: bool, start: int) returns (r: Option<nat>)
      requires Valid() && (cmp.Less? || cmp.LessEq?)
      ensures Found(sampleDecodingTime, sync, cmp, time, syncOnly, ClampStart(|sampleDecodingTime|, cmp, start), r)
    {
      var count := |sampleDecodingTime|;
      var s := if start < 0 || start >= count then count - 1 else start;
      var i: int := s;
      while i >= 0
        invariant -1 <= i <= s
        invariant forall j :: i < j <= s ==> !Candidate(sampleDecodingTime, sync, cmp, time, syncOnly, j)
      {
        var check := Matches(cmp, sampleDecodingTime[i], time);
        var ok := IsSearchable(i, syncOnly);
        if check && ok { return Some(i); }
        i := i - 1;
      }
      return None;
    }

    method FindForward(time: u64, cmp: TimeCmp, syncOnly: bool, start: int) returns (r: Option<nat>)
      requires Valid() && (cmp.Greater? || cmp.GreaterEq?)
      ensures Found(sampleDecodingTime, sync, cmp, time, syncOnly, ClampStart(|sampleDecodingTime|, cmp, start), r)
    {
      var count := |sampleDecodingTime|;
      var s := if start < 0 then 0 else start;
      if s >= count { s := count - 1; }
      for i := s to count
        invariant forall j :: s <= j < i ==> !Candidate(sampleDecodingTime, sync, cmp, time, syncOnly, j)
      {
        var check := Matches(cmp, sampleDecodingTime[i], time);
        var ok := IsSearchable(i, syncOnly);
        if check && ok { return Some(i); }
      }
      return None;
    }

    /** The library's search entry point; distances are signed 64-bit, so times stay below 2^63. */
    method FindSampleByTime(time: u64, cmp: TimeCmp, syncOnly: bool, start: int) returns (r: Option<nat>)
      requires Valid()
      requires cmp.Nearest? ==> time < TWO63 && TimesBelow(TWO63)
      ensures Found(sampleDecodingTime, sync, cmp, time, syncOnly, ClampStart(|sampleDecodingTime|, cmp, start), r)
    {
      match cmp
      case Exact => r := FindExact(time, syncOnly, start);
      case Nearest => r := FindNearest(time, syncOnly, start);
      case Less => r := FindBackward(time, cmp, syncOnly, start);
      case LessEq => r := FindBackward(time, cmp, syncOnly, start);
      case Greater => r := FindForward(time, cmp, syncOnly, start);
      case GreaterEq => r := FindForward(time, cmp, syncOnly, start);
    }

    // ---------- seek and read ----------

    /** Nothing but the reading state separates this from a track that sought `ts`. */
    ghost predicate Sought(ts: u64, how: SeekMethod)
      reads `sampleDecodingTime, `sync, `nextSample, `pendingSeekTime, `target
    {
      && Settled(sampleDecodingTime, ts, target)
      && Lands(sampleDecodingTime, sync, ts, how, target, Some(nextSample))
      && pendingSeekTime == if nextSample == target then 0 else sampleDecodingTime[target]
    }

    /** Where a seek would settle, no sample suits the method. */
    ghost predicate Unseekable(ts: u64, how: SeekMethod)
      reads `sampleDecodingTime, `sync
    {
      exists i :: Settled(sampleDecodingTime, ts, i) && Lands(sampleDecodingTime, sync, ts, how, i, None)
    }

    /** With increasing times, a seek to the previous sync sample succeeds exactly when there is a sync sample. */
    lemma SyncSeeks(ts: u64)
      requires Increasing(sampleDecodingTime)
      ensures Unseekable(ts, PreviousSync) ==> !HasSync(sampleDecodingTime, sync)
      ensures Sought(ts, PreviousSync) ==> HasSync(sampleDecodingTime, sync)
    {
      if Unseekable(ts, PreviousSync) {
        var i :| Settled(sampleDecodingTime, ts, i) && Lands(sampleDecodingTime, sync, ts, PreviousSync, i, None);
        NoSyncToLandOn(sampleDecodingTime, sync, ts, i, None);
      }
      if Sought(ts, PreviousSync) {
        NoSyncToLandOn(sampleDecodingTime, sync, ts, target, Some(nextSample));
      }
    }

    predicate TimesBelow(bound: int)
      reads `sampleDecodingTime
    {
      forall i :: 0 <= i < |sampleDecodingTime| ==> sampleDecodingTime[i] < bound
    }

    lemma PreviousAlwaysLands(ts: u64)
      ensures !Unseekable(ts, Previous)
    {
    }

    method GetSeekSample(start: nat, requested: u64, how: SeekMethod) returns (r: Option<nat>)
      requires Valid() && start < |sampleDecodingTime|
      requires how.NearestSample? || how.NearestSync? ==> requested < TWO63 && TimesBelow(TWO63)
      ensures Lands(sampleDecodingTime, sync, requested, how, start, r)
      decreases how.PreviousSync?
    {
      match how
      case Previous =>
        r := Some(start);
      case PreviousSync =>
        var isSync, prev := IsSyncSample(start);
        if isSync {
          r := Some(start);
        } else if prev.Some? {
          assert sampleDecodingTime[prev.value] <= sampleDecodingTime[start];
          r := prev;
        } else {
          r := GetSeekSample(start, requested, NextSync);
        }
      case NearestSample =>
        r := FindSampleByTime(requested, Nearest, false, start);
      case NearestSync =>
        r := FindSampleByTime(requested, Nearest, true, start);
      case Next =>
        r := FindSampleByTime(sampleDecodingTime[start], Greater, false, start);
      case NextSync =>
        r := FindSampleByTime(sampleDecodingTime[start], Greater, true, start);
    }

    /** Moves to the sample that suits the method, once the seek has settled. */
    method LandFrom(i: nat, ts: u64, how: SeekMethod) returns (found: bool)
      requires Valid() && Settled(sampleDecodingTime, ts, i)
      requires how.NearestSample? || how.NearestSync? ==> ts < TWO63 && TimesBelow(TWO63)
      modifies `nextSample, `pendingSeekTime, `target
      ensures Valid()
      ensures found ==> Sought(ts, how) && nextSample < |sampleDecodingTime| && target == i
      ensures !found ==> Unseekable(ts, how)
      ensures !found ==> nextSample == old(nextSample) && pendingSeekTime == old(pendingSeekTime) && target == old(target)
    {
      var idx := GetSeekSample(i, ts, how);
      if idx.None? { return false; }
      nextSample, target := idx.value, i;
      pendingSeekTime := if idx.value == i then 0 else sampleDecodingTime[i];
      return true;
    }

    /** Forward to the first sample that is not earlier, then back to one that is not later. */
    lemma SettlesThere(ts: u64, from: nat, start: nat, i: nat)
      requires NonDecreasing(sampleDecodingTime) && from <= start < |sampleDecodingTime| && i <= start
      requires forall j :: from <= j < start ==> sampleDecodingTime[j] < ts
      requires start == |sampleDecodingTime| - 1 || sampleDecodingTime[start] >= ts
      requires sampleDecodingTime[i] <= ts && forall j :: i < j <= start ==> sampleDecodingTime[j] > ts
      ensures SettledFrom(sampleDecodingTime, ts, from, i)
    {
      if j :| from <= j < |sampleDecodingTime| && sampleDecodingTime[j] == ts {
        assert start <= j;
        assert sampleDecodingTime[start] == ts && i == start;
      }
    }

    /** A seek from any start index whatever: the index decides how long the scans take, and which of several samples of the same time is found. */
    method SeekFrom(guess: int, ts: u64, how: SeekMethod) returns (found: bool)
      requires Valid()
      requires how.NearestSample? || how.NearestSync? ==> ts < TWO63 && TimesBelow(TWO63)
      modifies `nextSample, `pendingSeekTime, `target
      ensures Valid()
      ensures found ==> Sought(ts, how) && nextSample < |sampleDecodingTime|
      ensures found ==> SettledFrom(sampleDecodingTime, ts, Min(Max(guess, 0), |sampleDecodingTime| - 1), target)
      ensures !found ==> Unseekable(ts, how)
      ensures !found ==> nextSample == old(nextSample) && pendingSeekTime == old(pendingSeekTime) && target == old(target)
    {
      hide SettledFrom, Sought, Unseekable, Lands;
      var count := |sampleDecodingTime|;
      var start := if guess < 0 then 0 else guess;
      if start >= count { start := count - 1; }
      ghost var from := start;
      while start < count - 1 && sampleDecodingTime[start] < ts
        invariant from <= start < count
        invariant forall j :: from <= j < start ==> sampleDecodingTime[j] < ts
      {
        start := start + 1;
      }
      var i: int := start;
      while i >= 0
        invariant -1 <= i <= start
        invariant forall j :: i < j <= start ==> sampleDecodingTime[j] > ts
      {
        if sampleDecodingTime[i] <= ts {
          assert Settled(sampleDecodingTime, ts, i);
          SettlesThere(ts, from, start, i);
          found := LandFrom(i, ts, how);
          return;
        }
        i := i - 1;
      }
      assert false;
    }

    /** A quotient of 64-bit arithmetic, which wraps around, and its low 32 bits taken for a signed number. */
    static ghost predicate WrapsTo(n: int, d: u64, dividend: u64, q: nat, guess: int)
    {
      && (n - dividend) % TWO64 == 0 && q * d <= dividend < q * d + d
      && -TWO32 <= 2 * guess < TWO32 && (q - guess) % TWO32 == 0
    }

    static ghost predicate WrappedQuotient(n: int, d: u64, guess: int)
    {
      exists dividend: u64, q: nat :: WrapsTo(n, d, dividend, q, guess)
    }

    /** A start index of a seek: the number of samples in proportion to the time, rounded up. */
    ghost predicate Interpolated(ts: u64, guess: int)
      reads this
    {
      WrappedQuotient(|sampleDecodingTime| * ts + duration - 1, duration, guess)
    }

    lemma GuessInterpolates(ts: u64)
      requires duration > 0
      ensures Interpolated(ts, Guess(ts))
    {
      hide WrappedQuotient, Cast;
      GuessWraps(|sampleDecodingTime| * ts + duration - 1, duration);
    }

    static lemma GuessWraps(n: nat, d: u64)
      requires d > 0
      ensures WrappedQuotient(n, d, Cast(n % TWO64 / d))
    {
      var dividend: u64 := n % TWO64;
      var q: nat := dividend / d;
      Timescale.DivBounds(dividend, d);
      LowBits(q);
      Wrapped(n);
      assert WrapsTo(n, d, dividend, q, Cast(q));
    }

    static lemma LowBits(q: nat)
      ensures (q - q % TWO32) % TWO32 == 0 && (q - (q % TWO32 - TWO32)) % TWO32 == 0
    {
    }

    static lemma Wrapped(n: nat)
      ensures (n - n % TWO64) % TWO64 == 0
    {
    }

    /** Without wrap-around, the index has a meaning. */
    lemma InProportion(ts: u64, guess: int)
      requires Interpolated(ts, guess) && duration > 0
      requires |sampleDecodingTime| * ts + duration <= TWO64 && |sampleDecodingTime| * ts <= duration * (TWO32 / 2 - 1)
      ensures duration * (guess - 1) < |sampleDecodingTime| * ts <= duration * guess
    {
      QuotientFits(|sampleDecodingTime| * ts, duration, guess);
    }

    static lemma QuotientFits(a: nat, d: u64, guess: int)
      requires d > 0 && WrappedQuotient(a + d - 1, d, guess) && a + d <= TWO64 && a <= d * (TWO32 / 2 - 1)
      ensures d * (guess - 1) < a <= d * guess
    {
      hide WrapsTo;
      var dividend: u64, q: nat :| WrapsTo(a + d - 1, d, dividend, q, guess);
      Unwrapped(a + d - 1, d, dividend, q, guess);
      Timescale.RoundedUp(a, d, q, TWO32 / 2 - 1);
      assert d * (q - 1) == q * d - d;
    }

    static lemma Unwrapped(n: u64, d: u64, dividend: u64, q: nat, guess: int)
      requires WrapsTo(n, d, dividend, q, guess)
      ensures dividend == n && q * d <= n < q * d + d && (q < TWO32 / 2 ==> guess == q)
    {
    }

    /** A number assigned to a signed integer of 32 bits. */
    static function Cast(q: int): int
    {
      if q % TWO32 < TWO32 / 2 then q % TWO32 else q % TWO32 - TWO32
    }

    /** The interpolated start index, with the library's wrap-around and its cast to a signed integer. */
    function Guess(ts: u64): int
      requires duration > 0
      reads this
    {
      Cast((|sampleDecodingTime| * ts + duration - 1) % TWO64 / duration)
    }

    /** The target is where the scans from the interpolated index settle. */
    ghost predicate SettledByScan(ts: u64)
      reads this
    {
      && |sampleDecodingTime| > 0
      && exists guess :: Interpolated(ts, guess) && SettledFrom(sampleDecodingTime, ts, Min(Max(guess, 0), |sampleDecodingTime| - 1), target)
    }

    /** A seek, from an index interpolated over the duration of the track: without a duration that is a division by zero. */
    method Seek(ts: u64, how: SeekMethod) returns (r: SeekResult)
      requires Valid()
      requires how.NearestSample? || how.NearestSync? ==> ts < TWO63 && TimesBelow(TWO63)
      modifies `nextSample, `pendingSeekTime, `target
      ensures Valid()
      ensures r.DividesByZero? <==> duration == 0
      ensures r.Moved? ==> Sought(ts, how) && nextSample < |sampleDecodingTime|
      ensures r.Moved? ==> SettledByScan(ts)
      ensures r.Nowhere? ==> Unseekable(ts, how)
      ensures !r.Moved? ==> nextSample == old(nextSample) && pendingSeekTime == old(pendingSeekTime) && target == old(target)
    {
      if duration == 0 { return DividesByZero; }
      hide SettledFrom, Sought, Unseekable, Guess, Interpolated;
      GuessInterpolates(ts);
      var found := SeekFrom(Guess(ts), ts, how);
      r := if found then Moved else Nowhere;
    }

    /** The time of the closest sync sample before or after sample `i`, 0 if there is none. */
    ghost predicate IsNearbySync(i: nat, cmp: TimeCmp, time: u64)
      reads `sampleDecodingTime, `sync
      requires i < |sampleDecodingTime|
    {
      exists r: Option<nat> ::
        && Found(sampleDecodingTime, sync, cmp, sampleDecodingTime[i], true, i, r)
        && (r.Some? ==> r.value < |sampleDecodingTime|)
        && time == if r.Some? then sampleDecodingTime[r.value] else 0
    }

    /** Before: the last sync sample that is earlier. After: the first that is later. */
    lemma NearbySyncMeans(i: nat, before: u64, after: u64)
      requires i < |sampleDecodingTime| && IsNearbySync(i, Less, before) && IsNearbySync(i, Greater, after)
      ensures (before == 0 && forall j :: 0 <= j <= i && sampleDecodingTime[j] < sampleDecodingTime[i] ==> !IsSync(sync, j))
              || exists j :: 0 <= j < i && IsSync(sync, j) && before == sampleDecodingTime[j] < sampleDecodingTime[i]
                             && forall k :: j < k <= i && sampleDecodingTime[k] < sampleDecodingTime[i] ==> !IsSync(sync, k)
      ensures (after == 0 && forall j :: i <= j < |sampleDecodingTime| && sampleDecodingTime[j] > sampleDecodingTime[i] ==> !IsSync(sync, j))
              || exists j :: i < j < |sampleDecodingTime| && IsSync(sync, j) && after == sampleDecodingTime[j] > sampleDecodingTime[i]
                             && forall k :: i <= k < j && sampleDecodingTime[k] > sampleDecodingTime[i] ==> !IsSync(sync, k)
    {
      var t := sampleDecodingTime;
      var r: Option<nat> :| Found(t, sync, Less, t[i], true, i, r) && (r.Some? ==> r.value < |t|) && before == if r.Some? then t[r.value] else 0;
      var q: Option<nat> :| Found(t, sync, Greater, t[i], true, i, q) && (q.Some? ==> q.value < |t|) && after == if q.Some? then t[q.value] else 0;
      forall j | 0 <= j < |t| ensures Candidate(t, sync, Less, t[i], true, j) <==> t[j] < t[i] && IsSync(sync, j) {
      }
      forall j | 0 <= j < |t| ensures Candidate(t, sync, Greater, t[i], true, j) <==> t[j] > t[i] && IsSync(sync, j) {
      }
      if r.Some? { assert IsSync(sync, r.value) && t[r.value] < t[i]; }
      if q.Some? { assert IsSync(sync, q.value) && t[q.value] > t[i]; }
    }

    method NearbySync(i: nat, cmp: TimeCmp) returns (time: u64)
      requires Valid() && i < |sampleDecodingTime| && (cmp.Less? || cmp.Greater?)
      ensures IsNearbySync(i, cmp, time)
    {
      var r := FindSampleByTime(sampleDecodingTime[i], cmp, true, i);
      time := if r.Some? then sampleDecodingTime[r.value] else 0;
    }

    /** The bytes of the next sample, when the caller has a buffer for them. */
    method ReadData(file: seq<byte>, room: Option<nat>) returns (status: ReadStatus, data: seq<byte>)
      requires |sampleSize| == |sampleOffset|
      ensures status.AtEnd? <==> nextSample >= |sampleSize|
      ensures nextSample < |sampleSize| ==> (status.Read? <==> BufferSuits(file, room, sampleOffset[nextSample], sampleSize[nextSample]))
      ensures status.Read? && room.Some? ==> DataOf(file, sampleOffset[nextSample], sampleSize[nextSample], data)
    {
      if nextSample >= |sampleSize| { return AtEnd, []; }
      var size, offset := sampleSize[nextSample], sampleOffset[nextSample];
      if room.Some? && 0 < size <= room.value {
        if |file| < offset + size { return ShortRead, []; }
        return Read, file[offset..offset + size];
      } else if room.Some? && size > room.value {
        return BufferTooSmall, [];
      }
      return Read, [];
    }

    /** The pending seek ends with the first sample that is not before its target. */
    method MarkSilent() returns (silent: bool)
      requires Valid() && nextSample < |sampleDecodingTime|
      modifies `pendingSeekTime
      ensures Valid()
      ensures silent <==> sampleDecodingTime[nextSample] < sampleDecodingTime[target]
    {
      var time := sampleDecodingTime[nextSample];
      silent := pendingSeekTime != 0 && time < pendingSeekTime;
      if time >= pendingSeekTime { pendingSeekTime := 0; }
    }

    /** The library's read of the next sample: its bytes, its silent mark, and the neighbouring times. */
    method GetSample(file: seq<byte>, room: Option<nat>, advance: bool) returns (status: ReadStatus, sample: Sample)
      requires Valid()
      modifies `nextSample, `pendingSeekTime
      ensures Valid()
      ensures status.AtEnd? <==> old(nextSample) >= |sampleSize|
      ensures old(nextSample) < |sampleSize| ==>
                (status.Read? <==> BufferSuits(file, room, sampleOffset[old(nextSample)], sampleSize[old(nextSample)]))
      ensures !status.Read? ==> nextSample == old(nextSample) && pendingSeekTime == old(pendingSeekTime)
      ensures status.Read? ==> nextSample == old(nextSample) + if advance then 1 else 0
      ensures status.Read? ==> Describes(sample, old(nextSample))
      ensures status.Read? && room.Some? ==> DataOf(file, sample.offset, sample.size, sample.data)
    {
      hide IsNearbySync, NonDecreasing, SortedSync;
      sample := Sample(0, 0, [], false, false, 0, 0, 0, 0);
      var data;
      status, data := ReadData(file, room);
      if !status.Read? { return; }
      var i := nextSample;
      var silent := MarkSilent();
      var nextDts := if i < |sampleDecodingTime| - 1 then sampleDecodingTime[i + 1] else 0;
      var prevSync := NearbySync(i, Less);
      var nextSync := NearbySync(i, Greater);
      var isSync, prev := IsSyncSample(i);
      sample := Sample(sampleSize[i], sampleOffset[i], data, silent, isSync, sampleDecodingTime[i], nextDts, prevSync, nextSync);
      if advance { Advance(); }
    }

    method Advance()
      requires Valid() && nextSample < |sampleDecodingTime|
      modifies `nextSample
      ensures Valid() && nextSample == old(nextSample) + 1
    {
      nextSample := nextSample + 1;
    }

    /** What a sample handed out says about sample `i`; it is silent exactly when it is earlier than the seek target. */
    ghost predicate Describes(s: Sample, i: nat)
      reads `sampleSize, `sampleOffset, `sampleDecodingTime, `sync, `target
    {
      && i < |sampleDecodingTime| == |sampleSize| == |sampleOffset| && target < |sampleDecodingTime|
      && s.size == sampleSize[i] && s.offset == sampleOffset[i] && s.dts == sampleDecodingTime[i]
      && s.nextDts == (if i + 1 < |sampleDecodingTime| then sampleDecodingTime[i + 1] else 0)
      && s.sync == IsSync(sync, i)
      && (s.silent <==> sampleDecodingTime[i] < sampleDecodingTime[target])
      && IsNearbySync(i, Less, s.prevSyncDts) && IsNearbySync(i, Greater, s.nextSyncDts)
    }

    /** Sample `k` of a run of reads is the one described, and silent exactly before the target. */
    ghost predicate RunDescribes(out: seq<Sample>, read: seq<nat>, k: nat)
      reads `sampleSize, `sampleOffset, `sampleDecodingTime, `sync, `target
      requires k < |out| == |read|
    {
      Describes(out[k], read[k]) && (out[k].silent <==> read[k] < target)
    }

    /** The sample numbers of a run: one forward for each read that advances. */
    static ghost predicate RunSteps(first: nat, read: seq<nat>, advances: seq<bool>)
      requires |read| <= |advances|
    {
      forall k :: 0 <= k < |read| ==>
        read[k] == if k == 0 then first else read[k - 1] + if advances[k - 1] then 1 else 0
    }

    /** Any sequence of reads, each advancing or not, until the end or an error. */
    method ReadRun(file: seq<byte>, room: Option<nat>, advances: seq<bool>) returns (out: seq<Sample>, ghost read: seq<nat>)
      requires Valid() && Increasing(sampleDecodingTime)
      modifies `nextSample, `pendingSeekTime
      ensures Valid() && |out| == |read| <= |advances|
      ensures RunSteps(old(nextSample), read, advances)
      ensures forall k :: 0 <= k < |out| ==> RunDescribes(out, read, k)
    {
      out, read := [], [];
      for n := 0 to |advances|
        invariant Valid() && |out| == |read| == n
        invariant nextSample == if n == 0 then old(nextSample) else read[n - 1] + if advances[n - 1] then 1 else 0
        invariant RunSteps(old(nextSample), read, advances)
        invariant forall k :: 0 <= k < |out| ==> RunDescribes(out, read, k)
      {
        ghost var i, before, steps := nextSample, out, read;
        var status, sample := GetSample(file, room, advances[n]);
        if !status.Read? { return; }
        out, read := out + [sample], read + [i];
        forall k | 0 <= k < |out| ensures RunDescribes(out, read, k) {
          if k < n { assert RunDescribes(before, steps, k); }
        }
      }
    }
  }
}
