/**
 A track of the muxer: its tables, the run-length times computed from them, and
 the counters of what the journal already holds.
 */
module MuxTrack {
  import opened Bytes
  import opened Wrappers
  import opened TimeTable
  import opened Timescale
  import opened ChunkMap
  import opened Metadata
  import opened JournalFormat
  import opened JournalReplay
  import opened JournalSteps

  /** The configurations a track can have; the size of an audio configuration is kept in 32 bits. */
  predicate ConfigSuits(kind: TrackType, c: Config)
  {
    match kind
    case Video => c.Avc? || c.Hevc? || c.NoConfig?
    case Audio => c.Aac? && |c.asc| < TWO32
    case Timed => c.Mime?
    case Chapters => c.NoConfig? || c.Mime?
  }

  /** The configurations the setters accept: nothing in them is empty. */
  predicate Accepts(kind: TrackType, c: Config)
  {
    match kind
    case Video => (c.Avc? && c.sps != [] && c.pps != []) || (c.Hevc? && c.sps != [] && c.pps != [] && c.vps != [])
    case Audio => c.Aac? && c.asc != []
    case _ => c.Mime?
  }

  /** What a track has after an accepted configuration. */
  function Accepted(c: Config): Config
  {
    if c.Aac? then c.(asc := c.asc[..|c.asc| % TWO32]) else c
  }

  /** A refused video configuration has already changed the codec and the size of the picture. */
  function AfterRefusal(kind: TrackType, was: Config, c: Config): Config
  {
    if !kind.Video? || !(c.Avc? || c.Hevc?) then was
    else if (c.Avc? && was.Avc?) || (c.Hevc? && was.Hevc?) then was.(width := c.width, height := c.height)
    else if c.Avc? then Avc([], [], c.width, c.height)
    else Hevc([], [], [], c.width, c.height)
  }

  /** The setters take what the type of the track asks for, with nothing empty. */
  lemma AcceptsMeans(kind: TrackType, c: Config)
    ensures Accepts(kind, c) <==>
              || (kind.Video? && c.Avc? && |c.sps| > 0 && |c.pps| > 0)
              || (kind.Video? && c.Hevc? && |c.vps| > 0 && |c.sps| > 0 && |c.pps| > 0)
              || (kind.Audio? && c.Aac? && |c.asc| > 0) || ((kind.Timed? || kind.Chapters?) && c.Mime?)
  {
  }

  /** The configuration is the one given, part by part; of an audio configuration longer than 32 bits can say, a part is lost. */
  predicate ConfigGiven(now: Config, c: Config)
  {
    match c
    case Avc(sps, pps, width, height) => now.Avc? && now.sps == sps && now.pps == pps && now.width == width && now.height == height
    case Hevc(sps, pps, vps, width, height) =>
      now.Hevc? && now.sps == sps && now.pps == pps && now.vps == vps && now.width == width && now.height == height
    case Aac(codec, asc, channels, sampleSize, sampleRate) =>
      && now.Aac? && now.codec == codec && now.channels == channels && now.sampleSize == sampleSize && now.sampleRate == sampleRate
      && now.asc <= asc && |now.asc| == |asc| % TWO32
    case Mime(encoding, mime) => now.Mime? && now.encoding == encoding && now.mime == mime
    case NoConfig => now.NoConfig?
  }

  /** A refused configuration changes nothing, unless codec and size of the picture suit the track: then they stay, with the sets that were there for the codec. */
  predicate ConfigRefused(kind: TrackType, was: Config, now: Config, c: Config)
  {
    if kind.Video? && c.Avc? then
      && now.Avc? && now.width == c.width && now.height == c.height
      && (if was.Avc? then now.sps == was.sps && now.pps == was.pps else now.sps == [] && now.pps == [])
    else if kind.Video? && c.Hevc? then
      && now.Hevc? && now.width == c.width && now.height == c.height
      && (if was.Hevc? then now.sps == was.sps && now.pps == was.pps && now.vps == was.vps
          else now.sps == [] && now.pps == [] && now.vps == [])
    else now == was
  }

  lemma AcceptedIsGiven(c: Config)
    ensures ConfigGiven(Accepted(c), c)
    ensures c.Aac? && |c.asc| < TWO32 ==> Accepted(c) == c
    ensures !c.Aac? ==> Accepted(c) == c
  {
    if c.Aac? && |c.asc| < TWO32 { assert c.asc[..|c.asc| % TWO32] == c.asc; }
  }

  lemma RefusedMeans(kind: TrackType, was: Config, c: Config)
    ensures ConfigRefused(kind, was, AfterRefusal(kind, was, c), c)
  {
  }

  function DtsOf(samples: seq<Sample>): (d: seq<u64>)
    ensures |d| == |samples| && forall i :: 0 <= i < |d| ==> d[i] == samples[i].dts
  {
    seq(|samples|, i requires 0 <= i < |samples| => samples[i].dts)
  }

  /** Sync entries are sample numbers from 1, in order, of samples that exist. */
  predicate SyncsWithin(syncs: seq<u32>, count: nat)
  {
    && (forall i :: 0 <= i < |syncs| ==> 1 <= syncs[i] <= count)
    && (forall i, j :: 0 <= i < j < |syncs| ==> syncs[i] < syncs[j])
  }

  /** Every sample is its own chunk. */
  predicate OwnChunks(samples: seq<Sample>, chunks: seq<u64>)
  {
    |chunks| == |samples| && forall i :: 0 <= i < |samples| ==> chunks[i] == samples[i].offset
  }

  /** The step between two times, as a 32-bit variable keeps it. */
  function Step32(from: u64, to: u64): u32
  {
    (to - from) % TWO32
  }

  lemma StepAt(samples: seq<Sample>, i: nat)
    requires i + 1 < |samples|
    ensures Step32(samples[i].dts, samples[i + 1].dts) == Diffs(DtsOf(samples))[i]
  {
    var d := DtsOf(samples);
    assert d[i] == samples[i].dts && d[i + 1] == samples[i + 1].dts;
  }

  class Track {
    const handle: u32
    const info: TrackInfo
    var id: nat
    var refs: seq<u32>
    var config: Config
    var samples: seq<Sample>
    var chunks: seq<u64>
    var syncs: seq<u32>
    var times: seq<TtsEntry>
    var chunkMap: seq<StcEntry>
    var duration: u64
    var durationMoov: u64
    // how many entries of each table the journal holds
    var writtenSamples: nat
    var writtenChunks: nat
    var writtenTimes: nat
    var writtenChunkMap: nat
    var writtenSyncs: nat
    var infoWritten: bool
    var metas: seq<Meta>
    var metaWritten: nat
    var lastDts: int
    ghost var payloads: seq<seq<byte>>  // the bytes of every sample
    ghost var timed: nat                // samples the current time table covers
    ghost var live: bool                // recorded, not recovered

    constructor (handle: u32, info: TrackInfo)
      requires handle > 0
      ensures this.handle == handle && this.info == info
      ensures State() == TrackState(handle, info, InitialConfig(info.kind), [], [], [], [], [], ONE_PER_CHUNK, [],
                                    false, Written(0, 0, 0, 0, 0), 0)
      ensures lastDts == 0 && payloads == [] && timed == 0
      ensures GoodInfo(ClipInfo(info)) ==> Valid()
      ensures live
    {
      this.handle, this.info := handle, info;
      id, refs, config := 0, [], InitialConfig(info.kind);
      samples, chunks, syncs, times, chunkMap := [], [], [], [], ONE_PER_CHUNK;
      duration, durationMoov := 0, 0;
      writtenSamples, writtenChunks, writtenTimes, writtenChunkMap, writtenSyncs := 0, 0, 0, 0, 0;
      infoWritten, metas, metaWritten, lastDts := false, [], 0, 0;
      payloads, timed, live := [], 0, true;
    }

    function State(): TrackState
      reads `refs, `config, `samples, `chunks, `syncs, `times, `chunkMap, `metas, `infoWritten,
            `writtenSamples, `writtenChunks, `writtenTimes, `writtenChunkMap, `writtenSyncs, `metaWritten
    {
      TrackState(handle, info, config, refs, samples, chunks, syncs, times, chunkMap, metas, infoWritten,
                 Written(writtenSamples, writtenChunks, writtenTimes, writtenChunkMap, writtenSyncs), metaWritten)
    }

    /** What the track would be in a recovered recording. */
    function View(): TrackLog
      reads this
    {
      TrackLog(info, config, RefBytes(refs), samples, chunks, syncs, chunkMap, metas)
    }

    /** The tables agree with each other; recorded bytes are those of the samples. */
    ghost predicate Valid()
      reads `refs, `config, `samples, `chunks, `syncs, `times, `chunkMap, `metas, `infoWritten,
            `writtenSamples, `writtenChunks, `writtenTimes, `writtenChunkMap, `writtenSyncs, `metaWritten,
            `payloads, `timed, `lastDts, `live
    {
      && handle > 0 && GoodInfo(ClipInfo(info)) && ConfigSuits(info.kind, config)
      && InRange(State()) && OwnChunks(samples, chunks)
      && SyncsWithin(syncs, if live then |samples| else U32_MAX)
      && (syncs != [] ==> info.kind.Video?)
      && chunkMap == ONE_PER_CHUNK
      && (live ==> timed <= |samples| && times == Entries(DtsOf(samples)[..timed]))
      && (!live ==> writtenTimes == 0)
      && |refs| <= (if live then REFS_SIZE / 4 else REFS_SIZE)
      && |samples| < TWO32 && GoodMetas(metas, 0) && metaWritten <= |metas| + 1
      && |payloads| == |samples| && (forall i :: 0 <= i < |samples| ==> |payloads[i]| == samples[i].size)
      && -TWO63 <= lastDts < TWO63
    }

    /** Moving the counters of the journal within their tables keeps the track valid. */
    twostate lemma CountersValid()
      requires old(Valid()) && live && old(live) && InRange(State()) && metaWritten <= |metas| + 1
      requires unchanged(`config) && unchanged(`refs) && unchanged(`samples) && unchanged(`chunks) && unchanged(`syncs)
      requires unchanged(`times) && unchanged(`chunkMap) && unchanged(`metas) && unchanged(`lastDts)
      requires unchanged(`payloads) && unchanged(`timed)
      ensures Valid()
    {
      hide GoodMetas, Entries, DtsOf, SyncsWithin, OwnChunks;
    }

    /** One more step of the run-length loop. */
    method CountStep(diff: u32, prevDiff: u32)
      modifies `times
      ensures times == RleStep(old(times), prevDiff, diff)
    {
      if diff != prevDiff {
        times := times + [TtsEntry(1, diff)];
      } else if |times| > 0 {
        var last := times[|times| - 1];
        times := times[|times| - 1 := TtsEntry((last.count + 1) % TWO32, last.delta)];
      }
    }

    /** The three things the loop accumulates, one step further. */
    static lemma StepAdds(d: seq<u32>, i: nat, src: u32, dest: u32)
      requires i < |d| && src > 0
      ensures Rle(d[..i + 1]) == RleStep(Rle(d[..i]), if i == 0 then U32_MAX else d[i - 1], d[i])
      ensures Sum(d[..i + 1]) == Sum(d[..i]) + d[i]
      ensures MovieDuration(d[..i + 1], src, dest) == MovieDuration(d[..i], src, dest) + Convert(d[i], src, dest)
    {
      hide Convert, RleStep;
      assert d[..i + 1][..i] == d[..i];
    }

    static lemma AddWraps(a: int, b: int)
      ensures (a % TWO64 + b) % TWO64 == (a + b) % TWO64
    {
    }

    /** The first `i` steps are in the table and in both durations. */
    ghost predicate Accounted(d: seq<u32>, i: nat, dest: u32)
      requires i <= |d| && info.timescale > 0
      reads `times, `duration, `durationMoov
    {
      && times == Rle(d[..i])
      && duration == Sum(d[..i]) % TWO64
      && durationMoov == MovieDuration(d[..i], info.timescale, dest) % TWO64
    }

    /** What one turn of the loop does with a step. */
    method Account(diff: u32, prevDiff: u32, dest: u32, ghost d: seq<u32>, ghost i: nat)
      requires info.timescale > 0 && i < |d| && diff == d[i] && prevDiff == if i == 0 then U32_MAX else d[i - 1]
      requires Accounted(d, i, dest)
      modifies `times, `duration, `durationMoov
      ensures Accounted(d, i + 1, dest)
    {
      hide Convert, RleStep, Rle, Sum, MovieDuration;
      StepAdds(d, i, info.timescale, dest);
      AddWraps(MovieDuration(d[..i], info.timescale, dest), Convert(diff, info.timescale, dest));
      AddWraps(Sum(d[..i]), diff);
      durationMoov := (durationMoov + Convert(diff, info.timescale, dest)) % TWO64;
      duration := (duration + diff) % TWO64;
      CountStep(diff, prevDiff);
    }

    /**
     The run-length times, the duration, and the duration in movie time: one pass
     over the decoding times.
     */
    method ComputeTts(movieTimescale: u32)
      requires info.timescale > 0
      modifies `times, `duration, `durationMoov, `timed
      ensures times == Entries(DtsOf(samples)) && timed == |samples|
      ensures duration == Sum(Diffs(DtsOf(samples))) % TWO64
      ensures durationMoov == MovieDuration(Diffs(DtsOf(samples)), info.timescale, movieTimescale) % TWO64
    {
      hide Accounted, Step32, MovieDuration, Sum;
      ghost var d := Diffs(DtsOf(samples));
      times, duration, durationMoov, timed := [], 0, 0, |samples|;
      LoopStarts(movieTimescale);
      if |samples| == 0 { return; }
      var prevDiff: u32, prevDts := U32_MAX, samples[0].dts;
      for i := 1 to |samples|
        invariant timed == |samples|
        invariant prevDts == samples[i - 1].dts && prevDiff == if i == 1 then U32_MAX else d[i - 2]
        invariant Accounted(d, i - 1, movieTimescale)
      {
        var nextDts := samples[i].dts;
        var diff := Step32(prevDts, nextDts);
        StepAt(samples, i - 1);
        Account(diff, prevDiff, movieTimescale, d, i - 1);
        prevDiff, prevDts := diff, nextDts;
      }
      LoopEnds(d, movieTimescale);
      times := times + [TtsEntry(1, 0)];
    }

    /** Recomputing the times never shortens the table. */
    method Retime(movieTimescale: u32)
      requires Valid()
      modifies `times, `duration, `durationMoov, `timed
      ensures Valid()
      ensures State() == old(State()).(times := Entries(DtsOf(samples))) && |times| >= writtenTimes
      ensures duration == Sum(Diffs(DtsOf(samples))) % TWO64
      ensures durationMoov == MovieDuration(Diffs(DtsOf(samples)), info.timescale, movieTimescale) % TWO64
    {
      hide GoodMetas, Entries, SyncsWithin, OwnChunks, Sum, MovieDuration;
      if live { EntriesGrow(DtsOf(samples), timed); }
      ComputeTts(movieTimescale);
      assert DtsOf(samples)[..|samples|] == DtsOf(samples);
    }

    lemma LoopStarts(dest: u32)
      requires info.timescale > 0 && times == [] && duration == durationMoov == 0
      ensures Accounted(Diffs(DtsOf(samples)), 0, dest)
      ensures samples == [] ==> Entries(DtsOf(samples)) == [] && Accounted([], 0, dest) && Diffs(DtsOf(samples)) == []
      ensures samples == [] ==> Sum([]) == 0 && MovieDuration([], info.timescale, dest) == 0
    {
    }

    lemma LoopEnds(d: seq<u32>, dest: u32)
      requires info.timescale > 0 && Accounted(d, |d|, dest)
      ensures times == Rle(d) && duration == Sum(d) % TWO64 && durationMoov == MovieDuration(d, info.timescale, dest) % TWO64
    {
      assert d[..|d|] == d;
    }

    /** The tables grow by one sample, kept at `offset` with these bytes. */
    method Append(size: u32, offset: u64, dts: int, sync: bool, ghost payload: seq<byte>)
      requires Valid() && live && |payload| == size && -TWO63 <= dts < TWO63 && |samples| < TWO32 - 1
      modifies this
      ensures Valid() && live
      ensures var isSync := sync && info.kind.Video?;
              State() == old(State()).(samples := old(samples) + [Sample(size, offset, dts % TWO64)],
                                       chunks := old(chunks) + [offset],
                                       syncs := old(syncs) + (if isSync then [|samples|] else []))
      ensures payloads == old(payloads) + [payload] && lastDts == dts
    {
      hide GoodMetas, GoodInfo, Entries, SyncsWithin, OwnChunks, ConfigSuits, DtsOf;
      AppendedTables(samples, chunks, syncs, Sample(size, offset, dts % TWO64));
      AppendedDts(samples, Sample(size, offset, dts % TWO64), timed);
      if sync && info.kind.Video? { syncs := syncs + [|samples| + 1]; }
      samples, chunks, lastDts := samples + [Sample(size, offset, dts % TWO64)], chunks + [offset], dts;
      payloads := payloads + [payload];
    }

    static lemma AppendedTables(samples: seq<Sample>, chunks: seq<u64>, syncs: seq<u32>, x: Sample)
      requires OwnChunks(samples, chunks) && SyncsWithin(syncs, |samples|) && |samples| < TWO32 - 1
      ensures OwnChunks(samples + [x], chunks + [x.offset])
      ensures SyncsWithin(syncs, |samples| + 1) && SyncsWithin(syncs + [|samples| + 1], |samples| + 1)
    {
    }

    static lemma AppendedDts(samples: seq<Sample>, x: Sample, timed: nat)
      requires timed <= |samples|
      ensures DtsOf(samples + [x])[..timed] == DtsOf(samples)[..timed]
    {
    }

    /** A reference is kept once, and at most ten of them; a new one makes the description be written again. */
    method AddReference(ref: u32) returns (ok: bool)
      requires Valid() && ref != 0
      modifies `refs, `infoWritten
      ensures Valid()
      ensures ok <==> |old(refs)| < REFS_SIZE / 4
      ensures State() == if ok && ref !in old(refs) then old(State()).(refs := old(refs) + [ref], infoWritten := false) else old(State())
    {
      hide GoodMetas, GoodInfo, Entries;
      if |refs| >= REFS_SIZE / 4 { return false; }
      for i := 0 to |refs|
        invariant refs == old(refs) && infoWritten == old(infoWritten)
        invariant ref !in refs[..i]
      {
        if refs[i] == ref { return true; }
      }
      refs, infoWritten := refs + [ref], false;
      return true;
    }

    /** The decoder configuration, the audio configuration or the MIME type, if the track has that kind and nothing is empty. */
    method SetConfig(c: Config) returns (ok: bool)
      requires Valid()
      modifies `config
      ensures Valid()
      ensures ok <==> Accepts(info.kind, c)
      ensures if ok then ConfigGiven(config, c) else ConfigRefused(info.kind, old(config), config, c)
      ensures ok && (c.Aac? ==> |c.asc| < TWO32) ==> config == c
      ensures State() == old(State()).(config := if ok then Accepted(c) else AfterRefusal(info.kind, old(config), c))
    {
      hide GoodMetas, GoodInfo, Entries;
      AcceptedIsGiven(c);
      RefusedMeans(info.kind, config, c);
      ok := Accepts(info.kind, c);
      config := if ok then Accepted(c) else AfterRefusal(info.kind, config, c);
    }

    /** A user's metadata; an override makes the next sync write all of the track's metadata again. */
    method AddMeta(key: Key, value: seq<byte>) returns (ok: bool)
      requires Valid()
      modifies `metas, `metaWritten
      ensures Valid()
      ensures ok <==> ValidKey(key)
      ensures State() == if !ok then old(State()) else
                old(State()).(metas := Add(old(metas), key, value, true),
                              metaWritten := if IndexOf(old(metas), key) < |old(metas)| then 0 else old(metaWritten))
    {
      hide GoodMetas, GoodInfo, Entries, ValidKey, Add, IndexOf;
      var r, found := AddMetadata(metas, key, value, true);
      if r.None? { return false; }
      AddKeepsGood(metas, 0, key, value);
      metas := r.value;
      if found { metaWritten := 0; }
      return true;
    }
  }
}
