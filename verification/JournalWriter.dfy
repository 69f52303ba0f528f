/**
 What a sync writes for one track and for the metadata: the entries the journal
 does not have yet, one write at a time, each counted as soon as it is written.
 */
module JournalWriter {
  import opened Bytes
  import opened Wrappers
  import opened TimeTable
  import opened ChunkMap
  import opened Metadata
  import opened JournalFormat
  import opened JournalReplay
  import opened JournalFile
  import opened MuxTrack

  lemma Suffix<T>(s: seq<T>, i: nat)
    requires i < |s|
    ensures s[i..] != [] && s[i..][0] == s[i] && s[i..][1..] == s[i + 1..]
  {
  }

  /** Handle, tag and number of items of a record. */
  method WriteRecordHeader(j: TablesFile, handle: u32, tag: u32, number: u32, ghost r: Record, ghost goal: seq<byte>, ghost rest: seq<byte>)
    returns (ok: bool)
    requires j.Valid() && handle == HandleOf(r) && tag == Tag(r) && number == Number(r) % TWO32
    requires j.Written() + PRecord(r, rest) == goal
    modifies j
    ensures j.Valid() && j.safe == old(j.safe)
    ensures ok ==> j.Written() + PBody(r, rest) == goal
    ensures !ok ==> j.room == 0
  {
    hide P32, PBody, Tag, Number;
    ok := j.WriteBoxInfo(handle, tag, number, goal, PBody(r, rest));
  }

  method WriteTtsEntry(j: TablesFile, e: TtsEntry, ghost goal: seq<byte>, ghost rest: seq<byte>) returns (ok: bool)
    requires j.Valid() && j.Written() + PTts(e, rest) == goal
    modifies j
    ensures j.Valid() && j.safe == old(j.safe)
    ensures ok ==> j.Written() + rest == goal
    ensures !ok ==> j.room == 0
  {
    hide P32, P64, LE32, LE64;
    ok := j.Write32(e.count, goal, P32(e.delta, rest));
    if !ok { return; }
    ok := j.Write32(e.delta, goal, rest);
  }

  method WriteStcEntry(j: TablesFile, e: StcEntry, ghost goal: seq<byte>, ghost rest: seq<byte>) returns (ok: bool)
    requires j.Valid() && j.Written() + PStc(e, rest) == goal
    modifies j
    ensures j.Valid() && j.safe == old(j.safe)
    ensures ok ==> j.Written() + rest == goal
    ensures !ok ==> j.room == 0
  {
    hide P32, P64, LE32, LE64;
    ok := j.Write32(e.firstChunk, goal, P32(e.samplesPerChunk, P32(e.description, rest)));
    if !ok { return; }
    ok := j.Write32(e.samplesPerChunk, goal, P32(e.description, rest));
    if !ok { return; }
    ok := j.Write32(e.description, goal, rest);
  }

  method WriteSample(j: TablesFile, e: Sample, ghost goal: seq<byte>, ghost rest: seq<byte>) returns (ok: bool)
    requires j.Valid() && j.Written() + PSample(e, rest) == goal
    modifies j
    ensures j.Valid() && j.safe == old(j.safe)
    ensures ok ==> j.Written() + rest == goal
    ensures !ok ==> j.room == 0
  {
    hide P32, P64, LE32, LE64;
    ok := j.Write32(e.size, goal, P64(e.offset, P64(e.dts, rest)));
    if !ok { return; }
    ok := j.Write64(e.offset, goal, P64(e.dts, rest));
    if !ok { return; }
    ok := j.Write64(e.dts, goal, rest);
  }

  method WriteTimes(j: TablesFile, t: Track, ghost goal: seq<byte>, ghost rest: seq<byte>) returns (ok: bool)
    requires j.Valid() && t.writtenTimes <= |t.times|
    requires j.Written() + PList(PTts, t.times[t.writtenTimes..], rest) == goal
    modifies j, t`writtenTimes
    ensures j.Valid() && j.safe == old(j.safe) && old(t.writtenTimes) <= t.writtenTimes <= |t.times|
    ensures ok ==> j.Written() + rest == goal && t.writtenTimes == |t.times|
    ensures !ok ==> j.room == 0
  {
    hide PTts;
    ok := true;
    for i := t.writtenTimes to |t.times|
      invariant ok && j.Valid() && j.safe == old(j.safe) && t.writtenTimes == i
      invariant j.Written() + PList(PTts, t.times[i..], rest) == goal
    {
      Suffix(t.times, i);
      ok := WriteTtsEntry(j, t.times[i], goal, PList(PTts, t.times[i + 1..], rest));
      if !ok { return; }
      t.writtenTimes := i + 1;
    }
  }

  method WriteStts(j: TablesFile, t: Track, ghost goal: seq<byte>, ghost rest: seq<byte>) returns (ok: bool)
    requires j.Valid() && t.writtenTimes <= |t.times|
    requires j.Written() + PRecord(Stts(t.handle, t.times[t.writtenTimes..]), rest) == goal
    modifies j, t`writtenTimes
    ensures j.Valid() && j.safe == old(j.safe) && old(t.writtenTimes) <= t.writtenTimes <= |t.times|
    ensures ok ==> j.Written() + rest == goal && t.writtenTimes == |t.times|
    ensures !ok ==> j.room == 0
  {
    hide PRecord, PList;
    ok := WriteRecordHeader(j, t.handle, STTS, (|t.times| - t.writtenTimes) % TWO32, Stts(t.handle, t.times[t.writtenTimes..]), goal, rest);
    if !ok { return; }
    ok := WriteTimes(j, t, goal, rest);
  }

  method WriteSyncs(j: TablesFile, t: Track, ghost goal: seq<byte>, ghost rest: seq<byte>) returns (ok: bool)
    requires j.Valid() && t.writtenSyncs <= |t.syncs|
    requires j.Written() + PList(P32, t.syncs[t.writtenSyncs..], rest) == goal
    modifies j, t`writtenSyncs
    ensures j.Valid() && j.safe == old(j.safe) && old(t.writtenSyncs) <= t.writtenSyncs <= |t.syncs|
    ensures ok ==> j.Written() + rest == goal && t.writtenSyncs == |t.syncs|
    ensures !ok ==> j.room == 0
  {
    hide P32, LE32;
    ok := true;
    for i := t.writtenSyncs to |t.syncs|
      invariant ok && j.Valid() && j.safe == old(j.safe) && t.writtenSyncs == i
      invariant j.Written() + PList(P32, t.syncs[i..], rest) == goal
    {
      Suffix(t.syncs, i);
      ok := j.Write32(t.syncs[i], goal, PList(P32, t.syncs[i + 1..], rest));
      if !ok { return; }
      t.writtenSyncs := i + 1;
    }
  }

  method WriteStss(j: TablesFile, t: Track, ghost goal: seq<byte>, ghost rest: seq<byte>) returns (ok: bool)
    requires j.Valid() && t.writtenSyncs <= |t.syncs|
    requires j.Written() + PRecord(Stss(t.handle, t.syncs[t.writtenSyncs..]), rest) == goal
    modifies j, t`writtenSyncs
    ensures j.Valid() && j.safe == old(j.safe) && old(t.writtenSyncs) <= t.writtenSyncs <= |t.syncs|
    ensures ok ==> j.Written() + rest == goal && t.writtenSyncs == |t.syncs|
    ensures !ok ==> j.room == 0
  {
    hide PRecord, PList;
    ok := WriteRecordHeader(j, t.handle, STSS, (|t.syncs| - t.writtenSyncs) % TWO32, Stss(t.handle, t.syncs[t.writtenSyncs..]), goal, rest);
    if !ok { return; }
    ok := WriteSyncs(j, t, goal, rest);
  }

  method WriteChunkMap(j: TablesFile, t: Track, ghost goal: seq<byte>, ghost rest: seq<byte>) returns (ok: bool)
    requires j.Valid() && t.writtenChunkMap <= |t.chunkMap|
    requires j.Written() + PList(PStc, t.chunkMap[t.writtenChunkMap..], rest) == goal
    modifies j, t`writtenChunkMap
    ensures j.Valid() && j.safe == old(j.safe) && old(t.writtenChunkMap) <= t.writtenChunkMap <= |t.chunkMap|
    ensures ok ==> j.Written() + rest == goal && t.writtenChunkMap == |t.chunkMap|
    ensures !ok ==> j.room == 0
  {
    hide PStc;
    ok := true;
    for i := t.writtenChunkMap to |t.chunkMap|
      invariant ok && j.Valid() && j.safe == old(j.safe) && t.writtenChunkMap == i
      invariant j.Written() + PList(PStc, t.chunkMap[i..], rest) == goal
    {
      Suffix(t.chunkMap, i);
      ok := WriteStcEntry(j, t.chunkMap[i], goal, PList(PStc, t.chunkMap[i + 1..], rest));
      if !ok { return; }
      t.writtenChunkMap := i + 1;
    }
  }

  method WriteStsc(j: TablesFile, t: Track, ghost goal: seq<byte>, ghost rest: seq<byte>) returns (ok: bool)
    requires j.Valid() && t.writtenChunkMap <= |t.chunkMap|
    requires j.Written() + PRecord(Stsc(t.handle, t.chunkMap[t.writtenChunkMap..]), rest) == goal
    modifies j, t`writtenChunkMap
    ensures j.Valid() && j.safe == old(j.safe) && old(t.writtenChunkMap) <= t.writtenChunkMap <= |t.chunkMap|
    ensures ok ==> j.Written() + rest == goal && t.writtenChunkMap == |t.chunkMap|
    ensures !ok ==> j.room == 0
  {
    hide PRecord, PList;
    ok := WriteRecordHeader(j, t.handle, STSC, (|t.chunkMap| - t.writtenChunkMap) % TWO32, Stsc(t.handle, t.chunkMap[t.writtenChunkMap..]), goal, rest);
    if !ok { return; }
    ok := WriteChunkMap(j, t, goal, rest);
  }

  method WriteSamples(j: TablesFile, t: Track, ghost goal: seq<byte>, ghost rest: seq<byte>) returns (ok: bool)
    requires j.Valid() && t.writtenSamples <= |t.samples|
    requires j.Written() + PList(PSample, t.samples[t.writtenSamples..], rest) == goal
    modifies j, t`writtenSamples
    ensures j.Valid() && j.safe == old(j.safe) && old(t.writtenSamples) <= t.writtenSamples <= |t.samples|
    ensures ok ==> j.Written() + rest == goal && t.writtenSamples == |t.samples|
    ensures !ok ==> j.room == 0
  {
    hide PSample;
    ok := true;
    for i := t.writtenSamples to |t.samples|
      invariant ok && j.Valid() && j.safe == old(j.safe) && t.writtenSamples == i
      invariant j.Written() + PList(PSample, t.samples[i..], rest) == goal
    {
      Suffix(t.samples, i);
      ok := WriteSample(j, t.samples[i], goal, PList(PSample, t.samples[i + 1..], rest));
      if !ok { return; }
      t.writtenSamples := i + 1;
    }
  }

  method WriteStsz(j: TablesFile, t: Track, ghost goal: seq<byte>, ghost rest: seq<byte>) returns (ok: bool)
    requires j.Valid() && t.writtenSamples <= |t.samples|
    requires j.Written() + PRecord(Stsz(t.handle, t.samples[t.writtenSamples..]), rest) == goal
    modifies j, t`writtenSamples
    ensures j.Valid() && j.safe == old(j.safe) && old(t.writtenSamples) <= t.writtenSamples <= |t.samples|
    ensures ok ==> j.Written() + rest == goal && t.writtenSamples == |t.samples|
    ensures !ok ==> j.room == 0
  {
    hide PRecord, PList;
    ok := WriteRecordHeader(j, t.handle, STSZ, (|t.samples| - t.writtenSamples) % TWO32, Stsz(t.handle, t.samples[t.writtenSamples..]), goal, rest);
    if !ok { return; }
    ok := WriteSamples(j, t, goal, rest);
  }

  /** Offsets take 64 bits in the journal, whichever of the two tags the record has. */
  method WriteChunks(j: TablesFile, t: Track, ghost goal: seq<byte>, ghost rest: seq<byte>) returns (ok: bool)
    requires j.Valid() && t.writtenChunks <= |t.chunks|
    requires j.Written() + PList(P64, t.chunks[t.writtenChunks..], rest) == goal
    modifies j, t`writtenChunks
    ensures j.Valid() && j.safe == old(j.safe) && old(t.writtenChunks) <= t.writtenChunks <= |t.chunks|
    ensures ok ==> j.Written() + rest == goal && t.writtenChunks == |t.chunks|
    ensures !ok ==> j.room == 0
  {
    hide P32, P64, LE32, LE64;
    ok := true;
    for i := t.writtenChunks to |t.chunks|
      invariant ok && j.Valid() && j.safe == old(j.safe) && t.writtenChunks == i
      invariant j.Written() + PList(P64, t.chunks[i..], rest) == goal
    {
      Suffix(t.chunks, i);
      ok := j.Write64(t.chunks[i], goal, PList(P64, t.chunks[i + 1..], rest));
      if !ok { return; }
      t.writtenChunks := i + 1;
    }
  }

  method WriteStco(j: TablesFile, t: Track, ghost goal: seq<byte>, ghost rest: seq<byte>) returns (ok: bool)
    requires j.Valid() && t.writtenChunks <= |t.chunks| && t.chunks != []
    requires j.Written() + PRecord(Stco(t.handle, t.chunks[|t.chunks| - 1] > U32_MAX, t.chunks[t.writtenChunks..]), rest) == goal
    modifies j, t`writtenChunks
    ensures j.Valid() && j.safe == old(j.safe) && old(t.writtenChunks) <= t.writtenChunks <= |t.chunks|
    ensures ok ==> j.Written() + rest == goal && t.writtenChunks == |t.chunks|
    ensures !ok ==> j.room == 0
  {
    hide PRecord, PList;
    var tag := if t.chunks[|t.chunks| - 1] > U32_MAX then CO64 else STCO;
    ok := WriteRecordHeader(j, t.handle, tag, (|t.chunks| - t.writtenChunks) % TWO32, Stco(t.handle, tag == CO64, t.chunks[t.writtenChunks..]), goal, rest);
    if !ok { return; }
    ok := WriteChunks(j, t, goal, rest);
  }

  // ---------- the description of a track ----------

  /** The references of a track, by their count in bytes. */
  method WriteTrack(j: TablesFile, t: Track, ghost goal: seq<byte>, ghost rest: seq<byte>) returns (ok: bool)
    requires j.Valid()
    requires j.Written() + PRecord(Trak(t.handle, ClipInfo(t.info), RefBytes(t.refs)), rest) == goal
    modifies j, t`infoWritten
    ensures j.Valid() && j.safe == old(j.safe)
    ensures ok ==> j.Written() + rest == goal && t.infoWritten
    ensures !ok ==> j.room == 0
  {
    hide P32, P64, PArr32, PArr64, LE32, RefBytes;
    var i, name, refs := t.info, Clip(t.info.name, NAME_MAX), RefBytes(t.refs);
    ghost var p6 := PArr64(refs, rest);
    ghost var p5 := P64(i.modified, p6);
    ghost var p4 := P64(i.created, p5);
    ghost var p3 := P32(i.timescale, p4);
    ghost var p2 := P32(i.flags, p3);
    ghost var p1 := PArr32(name, p2);
    ok := j.WriteBoxInfo(t.handle, TRAK, 1, goal, P32(TypeCode(i.kind), p1));
    if !ok { return; }
    ok := j.Write32(TypeCode(i.kind), goal, p1);
    if !ok { return; }
    ok := j.WriteArr32(name, goal, p2);
    if !ok { return; }
    ok := j.Write32(i.flags, goal, p3);
    if !ok { return; }
    ok := j.Write32(i.timescale, goal, p4);
    if !ok { return; }
    ok := j.Write64(i.created, goal, p5);
    if !ok { return; }
    ok := j.Write64(i.modified, goal, p6);
    if !ok { return; }
    ok := j.WriteArr64(refs, goal, rest);
    if !ok { return; }
    t.infoWritten := true;
  }

  method WriteVideoConfig(j: TablesFile, c: Config, ghost goal: seq<byte>, ghost rest: seq<byte>) returns (ok: bool)
    requires j.Valid() && (c.Avc? || c.Hevc?) && j.Written() + PConfig(c, rest) == goal
    modifies j
    ensures j.Valid() && j.safe == old(j.safe)
    ensures ok ==> j.Written() + rest == goal
    ensures !ok ==> j.room == 0
  {
    hide P32, PArr64, LE32;
    ghost var dimensions := P32(c.width, P32(c.height, rest));
    ghost var vps := if c.Hevc? then PArr64(c.vps, dimensions) else dimensions;
    ok := j.Write32(if c.Avc? then AVC1 else HVC1, goal, PArr64(c.sps, PArr64(c.pps, vps)));
    if !ok { return; }
    ok := j.WriteArr64(c.sps, goal, PArr64(c.pps, vps));
    if !ok { return; }
    ok := j.WriteArr64(c.pps, goal, vps);
    if !ok { return; }
    if c.Hevc? {
      ok := j.WriteArr64(c.vps, goal, dimensions);
      if !ok { return; }
    }
    ok := j.Write32(c.width, goal, P32(c.height, rest));
    if !ok { return; }
    ok := j.Write32(c.height, goal, rest);
  }

  method WriteAudioConfig(j: TablesFile, c: Config, ghost goal: seq<byte>, ghost rest: seq<byte>) returns (ok: bool)
    requires j.Valid() && c.Aac? && j.Written() + PConfig(c, rest) == goal
    modifies j
    ensures j.Valid() && j.safe == old(j.safe)
    ensures ok ==> j.Written() + rest == goal
    ensures !ok ==> j.room == 0
  {
    hide P32, PArr32, LE32;
    ok := j.Write32(c.codec, goal, PArr32(c.asc, P32(c.channels, P32(c.sampleSize, P32(c.sampleRate, rest)))));
    if !ok { return; }
    ok := j.WriteArr32(c.asc, goal, P32(c.channels, P32(c.sampleSize, P32(c.sampleRate, rest))));
    if !ok { return; }
    ok := j.Write32(c.channels, goal, P32(c.sampleSize, P32(c.sampleRate, rest)));
    if !ok { return; }
    ok := j.Write32(c.sampleSize, goal, P32(c.sampleRate, rest));
    if !ok { return; }
    ok := j.Write32(c.sampleRate, goal, rest);
  }

  /** What is left in the journal of the description of a video track without a decoder configuration. */
  function TornStsd(handle: u32, t: seq<byte>): seq<byte>
  {
    P32(handle, P32(STSD, P32(1, P32(HVC1, t))))
  }

  /**
     The sample description; a video track without a decoder configuration cannot be
     described, which is found out only after the first words have been written.
  */
  method WriteStsd(j: TablesFile, t: Track, ghost goal: seq<byte>, ghost rest: seq<byte>) returns (ok: bool)
    requires j.Valid() && ConfigSuits(t.info.kind, t.config)
    requires j.Written() + PRecord(Stsd(t.handle, ClipConfig(t.info.kind, t.config)), rest) == goal
    modifies j
    ensures j.Valid() && j.safe == old(j.safe)
    ensures ok ==> j.Written() + rest == goal && (t.info.kind.Video? ==> !t.config.NoConfig?)
    ensures !ok ==> j.room == 0 || (t.info.kind.Video? && t.config.NoConfig?)
    ensures !ok && j.room > 0 ==> j.Written() == old(j.Written()) + TornStsd(t.handle, [])
  {
    hide P32, PArr32, LE32;
    var c := t.config;
    ghost var before := j.Written();
    ok := j.WriteBoxInfo(t.handle, STSD, 1, goal, PConfig(ClipConfig(t.info.kind, c), rest));
    if !ok { return; }
    match t.info.kind
    case Video =>
      if c.NoConfig? {
        TornFrom(before, j.Written(), t.handle, PConfig(c, rest), goal);
        var tag := j.Write32(HVC1, before + TornStsd(t.handle, []), []);
        assert j.Written() + [] == j.Written();
        return false;
      }
      ok := WriteVideoConfig(j, c, goal, rest);
    case Audio =>
      ok := WriteAudioConfig(j, c, goal, rest);
    case Timed =>
      var mime := Clip(c.mime, VALUE_MAX);
      ok := j.WriteArr32(Clip(c.encoding, VALUE_MAX), goal, PArr32(mime, rest));
      if !ok { return; }
      ok := j.WriteArr32(mime, goal, rest);
    case Chapters =>
  }

  /** The first words of a description, whatever was to follow them. */
  lemma TornFrom(before: seq<byte>, written: seq<byte>, handle: u32, more: seq<byte>, goal: seq<byte>)
    requires before + P32(handle, P32(STSD, P32(1, more))) == goal && written + more == goal
    ensures written + P32(HVC1, []) == before + TornStsd(handle, [])
  {
    hide LE32;
    var head := LE32(handle) + (LE32(STSD) + LE32(1));
    assert before + P32(handle, P32(STSD, P32(1, more))) == before + head + more;
    assert written == goal[..|goal| - |more|] == before + head;
    assert before + TornStsd(handle, []) == before + head + P32(HVC1, []);
  }

  // ---------- metadata and cover ----------

  method WriteMeta(j: TablesFile, handle: u32, m: Meta, ghost goal: seq<byte>, ghost rest: seq<byte>) returns (ok: bool)
    requires j.Valid() && j.Written() + PRecord(MetaItem(handle, Storage(m.key), ClipMeta(m)), rest) == goal
    modifies j
    ensures j.Valid() && j.safe == old(j.safe)
    ensures ok ==> j.Written() + rest == goal
    ensures !ok ==> j.room == 0
  {
    hide P32, PArr32, LE32, Storage;
    var key, value := Clip(m.key, NAME_MAX), Clip(m.value, VALUE_MAX);
    ok := j.WriteBoxInfo(handle, META, 1, goal, P32(Storage(m.key), PArr32(key, PArr32(value, rest))));
    if !ok { return; }
    ok := j.Write32(Storage(m.key), goal, PArr32(key, PArr32(value, rest)));
    if !ok { return; }
    ok := j.WriteArr32(key, goal, PArr32(value, rest));
    if !ok { return; }
    ok := j.WriteArr32(value, goal, rest);
  }

  /** Writes the entries from the counter on, and moves the counter one past the number of entries. */
  method SyncMeta(j: TablesFile, handle: u32, metas: seq<Meta>, written: nat, ghost goal: seq<byte>, ghost rest: seq<byte>)
    returns (ok: bool, written': nat)
    requires j.Valid()
    requires j.Written() + PRecords(MetaItems(handle, metas[FirstUnwritten(written, |metas|)..]), rest) == goal
    modifies j
    ensures j.Valid() && j.safe == old(j.safe)
    ensures ok ==> j.Written() + rest == goal && written' == |metas| + 1
    ensures !ok ==> written' == written
    ensures !ok ==> j.room == 0
  {
    hide PRecord, Storage, ClipMeta;
    ghost var first := FirstUnwritten(written, |metas|);
    for i := 0 to |metas|
      invariant j.Valid() && j.safe == old(j.safe)
      invariant j.Written() + PRecords(MetaItems(handle, metas[Max(i, first)..]), rest) == goal
    {
      if i + 1 >= written {
        Suffix(metas, i);
        ghost var items := MetaItems(handle, metas[i..]);
        assert items[1..] == MetaItems(handle, metas[i + 1..]);
        ok := WriteMeta(j, handle, metas[i], goal, PRecords(MetaItems(handle, metas[i + 1..]), rest));
        if !ok { return false, written; }
      }
    }
    return true, |metas| + 1;
  }

  method WriteCover(j: TablesFile, kind: u32, data: seq<byte>, ghost goal: seq<byte>, ghost rest: seq<byte>) returns (ok: bool)
    requires j.Valid() && j.Written() + PRecord(Cover(kind, data), rest) == goal
    modifies j
    ensures j.Valid() && j.safe == old(j.safe)
    ensures old(j.Written()) <= j.Written() <= goal
    ensures ok ==> j.Written() + rest == goal
    ensures !ok ==> j.room == 0
  {
    hide P32, PArr64, LE32;
    ok := j.WriteBoxInfo(0, COVR, 1, goal, P32(kind, PArr64(data, rest)));
    if !ok { return; }
    ok := j.Write32(kind, goal, PArr64(data, rest));
    if !ok { return; }
    ok := j.WriteArr64(data, goal, rest);
  }

  // ---------- one track ----------

  lemma FiveRecords(a: Record, b: Record, c: Record, d: Record, e: Record, more: seq<Record>, rest: seq<byte>)
    ensures PRecords([a, b, c, d, e] + more, rest) == PRecord(a, PRecord(b, PRecord(c, PRecord(d, PRecord(e, PRecords(more, rest))))))
  {
    hide PRecord;
    RecordsAppend([a, b, c, d, e], more, rest);
    var t := PRecords(more, rest);
    assert PRecords([a, b, c, d, e], t) == PRecord(a, PRecords([b, c, d, e], t)) by { assert [a, b, c, d, e][1..] == [b, c, d, e]; }
    assert PRecords([b, c, d, e], t) == PRecord(b, PRecords([c, d, e], t)) by { assert [b, c, d, e][1..] == [c, d, e]; }
    assert PRecords([c, d, e], t) == PRecord(c, PRecords([d, e], t)) by { assert [c, d, e][1..] == [d, e]; }
    assert PRecords([d, e], t) == PRecord(d, PRecords([e], t)) by { assert [d, e][1..] == [e]; }
    assert PRecords([e], t) == PRecord(e, t) by { assert [e][1..] == []; }
  }

  /** The five table records. */
  method WriteTables(j: TablesFile, t: Track, ghost goal: seq<byte>, ghost rest: seq<byte>) returns (ok: bool)
    requires j.Valid() && InRange(t.State()) && t.samples != []
    requires var r := TableRecords(t.State());
             j.Written() + PRecord(r[0], PRecord(r[1], PRecord(r[2], PRecord(r[3], PRecord(r[4], rest))))) == goal
    modifies j, t`writtenTimes, t`writtenSyncs, t`writtenChunkMap, t`writtenSamples, t`writtenChunks
    ensures j.Valid() && j.safe == old(j.safe) && InRange(t.State())
    ensures ok ==> j.Written() + rest == goal
    ensures ok ==> t.State().written == Written(|t.samples|, |t.chunks|, |t.times|, |t.chunkMap|, |t.syncs|)
    ensures !ok ==> j.room == 0
  {
    hide PRecord;
    ghost var r := TableRecords(t.State());
    ghost var p4 := PRecord(r[4], rest);
    ghost var p3 := PRecord(r[3], p4);
    ghost var p2 := PRecord(r[2], p3);
    ok := WriteStts(j, t, goal, PRecord(r[1], p2));
    if !ok { return; }
    ok := WriteStss(j, t, goal, p2);
    if !ok { return; }
    ok := WriteStsc(j, t, goal, p3);
    if !ok { return; }
    ok := WriteStsz(j, t, goal, p4);
    if !ok { return; }
    ok := WriteStco(j, t, goal, rest);
  }

  /** What is new in the tables and the metadata of a track. */
  method SyncTrack(j: TablesFile, t: Track, ghost goal: seq<byte>, ghost rest: seq<byte>) returns (ok: bool)
    requires j.Valid() && InRange(t.State()) && t.samples != []
    requires j.Written() + PRecords(TableRecords(t.State()) + MetaItems(t.handle, t.metas[FirstUnwritten(t.metaWritten, |t.metas|)..]), rest) == goal
    modifies j, t`writtenTimes, t`writtenSyncs, t`writtenChunkMap, t`writtenSamples, t`writtenChunks, t`metaWritten
    ensures j.Valid() && j.safe == old(j.safe) && InRange(t.State())
    ensures t.metaWritten == old(t.metaWritten) || t.metaWritten == |t.metas| + 1
    ensures ok ==> j.Written() + rest == goal && t.metaWritten == |t.metas| + 1
    ensures ok ==> t.State().written == Written(|t.samples|, |t.chunks|, |t.times|, |t.chunkMap|, |t.syncs|)
    ensures !ok ==> j.room == 0
  {
    hide PRecord, PRecords, MetaItems;
    ghost var r := TableRecords(t.State());
    ghost var items := MetaItems(t.handle, t.metas[FirstUnwritten(t.metaWritten, |t.metas|)..]);
    FiveRecords(r[0], r[1], r[2], r[3], r[4], items, rest);
    ok := WriteTables(j, t, goal, PRecords(items, rest));
    if !ok { return; }
    var n;
    ok, n := SyncMeta(j, t.handle, t.metas, t.metaWritten, goal, rest);
    t.metaWritten := n;
  }

  /** The two records that describe a track. */
  method WriteDescription(j: TablesFile, t: Track, ghost goal: seq<byte>, ghost rest: seq<byte>) returns (ok: bool)
    requires j.Valid() && !t.infoWritten && ConfigSuits(t.info.kind, t.config)
    requires j.Written() + PRecord(Trak(t.handle, ClipInfo(t.info), RefBytes(t.refs)),
                                   PRecord(Stsd(t.handle, ClipConfig(t.info.kind, t.config)), rest)) == goal
    modifies j, t`infoWritten
    ensures j.Valid() && j.safe == old(j.safe)
    ensures ok ==> j.Written() + rest == goal && t.infoWritten && !Undescribed(old(t.State()))
    ensures !ok ==> j.room == 0 || Undescribed(old(t.State()))
    ensures !ok && j.room > 0 ==>
              t.infoWritten && j.Written() == old(j.Written()) + PRecord(Trak(t.handle, ClipInfo(t.info), RefBytes(t.refs)), TornStsd(t.handle, []))
  {
    hide PRecord, ClipConfig, ClipInfo, RefBytes, ConfigSuits;
    ghost var before := j.Written();
    ghost var whole, stsd := Trak(t.handle, ClipInfo(t.info), RefBytes(t.refs)), PRecord(Stsd(t.handle, ClipConfig(t.info.kind, t.config)), rest);
    ok := WriteTrack(j, t, goal, stsd);
    if !ok { return; }
    TrakOnly(before, j.Written(), whole, stsd, goal);
    ok := WriteStsd(j, t, goal, rest);
    TrakThen(before, whole, TornStsd(t.handle, []));
  }

  /** A whole record, and what comes after it. */
  lemma TrakOnly(before: seq<byte>, written: seq<byte>, r: Record, more: seq<byte>, goal: seq<byte>)
    requires before + PRecord(r, more) == goal && written + more == goal
    ensures written == before + PRecord(r, [])
  {
    hide PRecord;
    RecordTail(r, [], more);
    assert [] + more == more;
    assert written == goal[..|goal| - |more|];
  }

  lemma TrakThen(before: seq<byte>, r: Record, t: seq<byte>)
    ensures before + PRecord(r, []) + t == before + PRecord(r, t)
  {
    hide PRecord;
    RecordTail(r, [], t);
    assert [] + t == t;
  }

  /** The description of a track, unless it is written already, and then what is new in it. */
  method SyncWholeTrack(j: TablesFile, t: Track, ghost goal: seq<byte>, ghost rest: seq<byte>) returns (ok: bool)
    requires j.Valid() && InRange(t.State()) && ConfigSuits(t.info.kind, t.config)
    requires j.Written() + PRecords(TrackRecords(t.State()), rest) == goal
    modifies j, t`writtenTimes, t`writtenSyncs, t`writtenChunkMap, t`writtenSamples, t`writtenChunks, t`metaWritten, t`infoWritten
    ensures j.Valid() && j.safe == old(j.safe) && InRange(t.State())
    ensures t.metaWritten == old(t.metaWritten) || t.metaWritten == |t.metas| + 1
    ensures ok ==> j.Written() + rest == goal && t.State() == Synced(old(t.State()))
    ensures ok ==> !Undescribed(old(t.State()))
    ensures !ok ==> j.room == 0 || Undescribed(old(t.State()))
    ensures !ok && j.room > 0 ==>
              t.State() == old(t.State()).(infoWritten := true) && j.Written() == old(j.Written()) + PRecord(Trak(t.handle, ClipInfo(t.info), RefBytes(t.refs)), TornStsd(t.handle, []))
  {
    hide PRecord, PRecords, MetaItems, ClipConfig, ClipInfo, RefBytes, ConfigSuits, HeadRecords, TrackRecords;
    ghost var s := t.State();
    ghost var more := if s.samples == [] then [] else TableRecords(s) + MetaItems(s.handle, s.metas[FirstUnwritten(s.metaWritten, |s.metas|)..]);
    WholeRecords(s);
    HeadBytes(s, more, rest);
    if !t.infoWritten {
      ok := WriteDescription(j, t, goal, PRecords(more, rest));
      if !ok { return; }
    }
    if |t.samples| == 0 { return true; }
    ok := SyncTrack(j, t, goal, rest);
  }

  lemma WholeRecords(s: TrackState)
    requires InRange(s)
    ensures TrackRecords(s) == HeadRecords(s) +
            if s.samples == [] then [] else TableRecords(s) + MetaItems(s.handle, s.metas[FirstUnwritten(s.metaWritten, |s.metas|)..])
  {
  }

  lemma HeadBytes(s: TrackState, more: seq<Record>, rest: seq<byte>)
    ensures PRecords(HeadRecords(s) + more, rest) ==
            if s.infoWritten then PRecords(more, rest)
            else PRecord(Trak(s.handle, ClipInfo(s.info), RefBytes(s.refs)),
                         PRecord(Stsd(s.handle, ClipConfig(s.info.kind, s.config)), PRecords(more, rest)))
    ensures more == [] ==> PRecords(more, rest) == rest
  {
    hide PRecord, ClipInfo, RefBytes, ClipConfig;
    if s.infoWritten {
      assert HeadRecords(s) + more == more;
    } else {
      var h := HeadRecords(s);
      RecordsAppend(h, more, rest);
      assert h[1..] == [h[1]] && [h[1]][1..] == [];
    }
  }
}
