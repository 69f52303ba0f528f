/**
 What a sync appends to the journal for the live tables, what replaying it does to
 the recovered ones, and why the two agree.
 */
module JournalReplay {
  import opened Bytes
  import opened Wrappers
  import opened TimeTable
  import opened ChunkMap
  import opened Metadata
  import opened JournalFormat

  /** A recovered track; its time-to-sample table is recomputed, not recovered. */
  datatype TrackLog = TrackLog(
    info: TrackInfo, config: Config, refs: seq<byte>,
    samples: seq<Sample>, chunks: seq<u64>, syncs: seq<u32>, chunkMap: seq<StcEntry>, metas: seq<Meta>)

  /** A recovered recording; the track with handle `h` is at `h - 1`. */
  datatype Log = Log(tracks: seq<TrackLog>, metas: seq<Meta>, cover: Option<(u32, seq<byte>)>)

  /** One sample per chunk: the sample-to-chunk table of every track of the muxer. */
  const ONE_PER_CHUNK: seq<StcEntry> := [StcEntry(1, 1, 1)]

  const EMPTY_LOG := Log([], [], None)

  // ---------- replay ----------

  /** What a track starts with, by type. */
  function InitialConfig(kind: TrackType): Config
  {
    match kind
    case Audio => Aac(0, [], 0, 0, 0)
    case Timed => Mime([], [])
    case _ => NoConfig
  }

  predicate Known(h: u32, log: Log)
  {
    1 <= h <= |log.tracks|
  }

  /** What reading a track record demands of it. */
  predicate GoodInfo(i: TrackInfo)
  {
    i.timescale > 0 && i.flags < 8 && i.created >= EPOCH_OFFSET && i.modified >= EPOCH_OFFSET && |i.name| <= MAX_ALLOC_SIZE
  }

  /** A configuration the reader accepts for a track of this type. */
  predicate GoodConfig(kind: TrackType, c: Config)
  {
    match c
    case Avc(sps, pps, _, _) => kind.Video? && |sps| <= MAX_ALLOC_SIZE && |pps| <= MAX_ALLOC_SIZE
    case Hevc(sps, pps, vps, _, _) => kind.Video? && |sps| <= MAX_ALLOC_SIZE && |pps| <= MAX_ALLOC_SIZE && |vps| <= MAX_ALLOC_SIZE
    case Aac(_, asc, _, _, _) => kind.Audio? && |asc| <= MAX_ALLOC_SIZE
    case Mime(encoding, mime) => kind.Timed? && |encoding| <= MAX_ALLOC_SIZE && |mime| <= MAX_ALLOC_SIZE
    case NoConfig => kind.Chapters?
  }

  /** The 40 bytes that hold ten references. */
  const REFS_SIZE: nat := 40

  predicate Replayable(r: Record, log: Log)
  {
    match r
    case Trak(h, info, refs) => GoodInfo(info) && |refs| <= REFS_SIZE && (Known(h, log) || h == |log.tracks| + 1)
    case Stsd(h, config) => Known(h, log) && GoodConfig(log.tracks[h - 1].info.kind, config)
    case MetaItem(h, _, m) => (h == 0 || Known(h, log)) && ValidKey(m.key) && |m.key| <= MAX_ALLOC_SIZE && |m.value| <= MAX_ALLOC_SIZE
    case Cover(_, data) => |data| <= MAX_ALLOC_SIZE
    case _ => Known(r.handle, log) && Number(r) <= MAX_ITEM_NUMBER
  }

  /** The table has one entry, which the last one read replaces. */
  function LastEntry(chunkMap: seq<StcEntry>, es: seq<StcEntry>): seq<StcEntry>
  {
    if es == [] then chunkMap else [es[|es| - 1]]
  }

  function Apply(r: Record, log: Log): Log
    requires Replayable(r, log)
  {
    match r
    case Trak(h, info, refs) =>
      if Known(h, log) then log.(tracks := log.tracks[h - 1 := log.tracks[h - 1].(refs := refs)])
      else log.(tracks := log.tracks + [TrackLog(info, InitialConfig(info.kind), refs, [], [], [], ONE_PER_CHUNK, [])])
    case Stsd(h, config) => log.(tracks := log.tracks[h - 1 := log.tracks[h - 1].(config := config)])
    case Stss(h, es) => log.(tracks := log.tracks[h - 1 := log.tracks[h - 1].(syncs := log.tracks[h - 1].syncs + es)])
    case Stsc(h, es) => log.(tracks := log.tracks[h - 1 := log.tracks[h - 1].(chunkMap := LastEntry(log.tracks[h - 1].chunkMap, es))])
    case Stsz(h, es) => log.(tracks := log.tracks[h - 1 := log.tracks[h - 1].(samples := log.tracks[h - 1].samples + es)])
    case Stco(h, _, es) => log.(tracks := log.tracks[h - 1 := log.tracks[h - 1].(chunks := log.tracks[h - 1].chunks + es)])
    case MetaItem(h, _, m) =>
      if h == 0 then log.(metas := Add(log.metas, m.key, m.value, true))
      else log.(tracks := log.tracks[h - 1 := log.tracks[h - 1].(metas := Add(log.tracks[h - 1].metas, m.key, m.value, true))])
    case Cover(kind, data) => log.(cover := Some((kind, data)))
    case _ => log
  }

  /** Replay in order; nothing if some record cannot be replayed. */
  function ApplyAll(rs: seq<Record>, log: Log): Option<Log>
  {
    if rs == [] then Some(log)
    else if !Replayable(rs[0], log) then None
    else ApplyAll(rs[1..], Apply(rs[0], log))
  }

  lemma {:induction false} ApplyAllAppend(a: seq<Record>, b: seq<Record>, log: Log)
    ensures ApplyAll(a + b, log) ==
            var mid := ApplyAll(a, log); if mid.None? then None else ApplyAll(b, mid.value)
  {
    hide Apply, Replayable;
    if a == [] {
      assert a + b == b;
    } else {
      assert (a + b)[1..] == a[1..] + b;
      if Replayable(a[0], log) { ApplyAllAppend(a[1..], b, Apply(a[0], log)); }
    }
  }

  // ---------- the live side ----------

  /** How many entries of each table the journal already holds. */
  datatype Written = Written(samples: nat, chunks: nat, times: nat, chunkMap: nat, syncs: nat)

  /** A live track as a sync sees it. */
  datatype TrackState = TrackState(
    handle: u32, info: TrackInfo, config: Config, refs: seq<u32>,
    samples: seq<Sample>, chunks: seq<u64>, syncs: seq<u32>, times: seq<TtsEntry>, chunkMap: seq<StcEntry>, metas: seq<Meta>,
    infoWritten: bool, written: Written, metaWritten: nat)

  /** A string too long for its bound counts as empty. */
  function Clip(s: seq<byte>, bound: nat): seq<byte>
  {
    if |s| < bound then s else []
  }

  function ClipMeta(m: Meta): Meta
  {
    Meta(Clip(m.key, NAME_MAX), Clip(m.value, VALUE_MAX))
  }

  function ClipMetas(ms: seq<Meta>): (r: seq<Meta>)
    ensures |r| == |ms| && forall i :: 0 <= i < |ms| ==> r[i] == ClipMeta(ms[i])
  {
    seq(|ms|, i requires 0 <= i < |ms| => ClipMeta(ms[i]))
  }

  function ClipInfo(i: TrackInfo): TrackInfo
  {
    i.(name := Clip(i.name, NAME_MAX))
  }

  /** What the journal says of the configuration of a track. */
  function ClipConfig(kind: TrackType, c: Config): Config
  {
    if kind.Chapters? then NoConfig
    else if c.Mime? then Mime(Clip(c.encoding, VALUE_MAX), Clip(c.mime, VALUE_MAX))
    else c
  }

  // ---------- what of it survives ----------

  /** A text is kept, or nothing of it. */
  predicate TextKept(kept: seq<byte>, text: seq<byte>, bound: nat)
  {
    kept == if |text| < bound then text else []
  }

  /** What a track was added with, of which only a long name is lost. */
  predicate InfoKept(kept: TrackInfo, info: TrackInfo)
  {
    && kept.kind == info.kind && kept.flags == info.flags && kept.timescale == info.timescale
    && kept.created == info.created && kept.modified == info.modified && TextKept(kept.name, info.name, 255)
  }

  /** Metadata, entry by entry: long keys and long values are lost. */
  predicate MetasKept(kept: seq<Meta>, metas: seq<Meta>)
  {
    |kept| == |metas| && forall i :: 0 <= i < |metas| ==>
      TextKept(kept[i].key, metas[i].key, 255) && TextKept(kept[i].value, metas[i].value, 65535)
  }

  /** A configuration: parameter sets and audio configurations as they are, MIME types unless they are long, and none for chapters. */
  predicate ConfigKept(kind: TrackType, kept: Config, c: Config)
  {
    if kind.Chapters? then kept == NoConfig
    else match c
      case Avc(sps, pps, width, height) => kept.Avc? && kept.sps == sps && kept.pps == pps && kept.width == width && kept.height == height
      case Hevc(sps, pps, vps, width, height) =>
        kept.Hevc? && kept.sps == sps && kept.pps == pps && kept.vps == vps && kept.width == width && kept.height == height
      case Aac(codec, asc, channels, sampleSize, sampleRate) =>
        && kept.Aac? && kept.codec == codec && kept.asc == asc
        && kept.channels == channels && kept.sampleSize == sampleSize && kept.sampleRate == sampleRate
      case Mime(encoding, mime) => kept.Mime? && TextKept(kept.encoding, encoding, 65535) && TextKept(kept.mime, mime, 65535)
      case NoConfig => kept.NoConfig?
  }

  lemma InfoSurvives(kept: TrackInfo, info: TrackInfo)
    ensures InfoKept(kept, info) <==> kept == ClipInfo(info)
  {
  }

  lemma MetasSurvive(kept: seq<Meta>, metas: seq<Meta>)
    ensures MetasKept(kept, metas) <==> kept == ClipMetas(metas)
  {
    if MetasKept(kept, metas) {
      forall i | 0 <= i < |metas| ensures kept[i] == ClipMeta(metas[i]) {
      }
      assert kept == ClipMetas(metas);
    }
  }

  lemma ConfigSurvives(kind: TrackType, kept: Config, c: Config)
    ensures ConfigKept(kind, kept, c) <==> kept == ClipConfig(kind, c)
  {
  }

  /** The references are journalled by their count, taken in bytes. */
  function RefBytes(refs: seq<u32>): seq<byte>
  {
    var all := PList(P32, refs, []);
    all[..Min(|refs|, |all|)]
  }

  /** The counter of metadata entries is one more than the number written, and 0 before the first sync. */
  function FirstUnwritten(metaWritten: nat, count: nat): (k: nat)
    ensures k <= count
  {
    Min(Max(metaWritten - 1, 0), count)
  }

  function MetaItems(handle: u32, ms: seq<Meta>): seq<Record>
  {
    if ms == [] then [] else [MetaItem(handle, Storage(ms[0].key), ClipMeta(ms[0]))] + MetaItems(handle, ms[1..])
  }

  /** moov/meta, moov/udta/meta or moov/udta, by the form of the key. */
  function Storage(key: Key): u32
  {
    if |key| >= 4 && key[..4] == Ascii("com.") then 0 else if key == BE32(0xA978797a) then 2 else 1
  }

  /** The entries of a table the journal does not have yet. */
  predicate InRange(s: TrackState)
  {
    && s.written.samples <= |s.samples| && s.written.chunks <= |s.chunks| && s.written.syncs <= |s.syncs|
    && s.written.times <= |s.times| && s.written.chunkMap <= |s.chunkMap|
    && |s.samples| == |s.chunks|
  }

  function HeadRecords(s: TrackState): seq<Record>
  {
    if s.infoWritten then []
    else [Trak(s.handle, ClipInfo(s.info), RefBytes(s.refs)), Stsd(s.handle, ClipConfig(s.info.kind, s.config))]
  }

  function TableRecords(s: TrackState): seq<Record>
    requires InRange(s) && s.samples != []
  {
    [Stts(s.handle, s.times[s.written.times..]),
     Stss(s.handle, s.syncs[s.written.syncs..]),
     Stsc(s.handle, s.chunkMap[s.written.chunkMap..]),
     Stsz(s.handle, s.samples[s.written.samples..]),
     Stco(s.handle, s.chunks[|s.chunks| - 1] > U32_MAX, s.chunks[s.written.chunks..])]
  }

  /** What one sync appends for a track: its description once, then what is new in its tables. */
  function TrackRecords(s: TrackState): seq<Record>
    requires InRange(s)
  {
    HeadRecords(s) +
    if s.samples == [] then []
    else TableRecords(s) + MetaItems(s.handle, s.metas[FirstUnwritten(s.metaWritten, |s.metas|)..])
  }

  // ---------- agreement ----------

  /** Accepted keys, pairs together, and what was written was short enough. */
  ghost predicate GoodMetas(ms: seq<Meta>, metaWritten: nat)
  {
    && Paired(ms)
    && (forall i :: 0 <= i < |ms| ==> ValidKey(ms[i].key))
    && (forall i :: 0 <= i < FirstUnwritten(metaWritten, |ms|) ==> |ms[i].key| < NAME_MAX)
  }

  predicate AllShort(ms: seq<Meta>)
  {
    forall i :: 0 <= i < |ms| ==> |ms[i].key| < NAME_MAX
  }

  /** The metadata still to be written has keys the journal can hold. */
  predicate LoggableMetas(ms: seq<Meta>, metaWritten: nat)
  {
    AllShort(ms[FirstUnwritten(metaWritten, |ms|)..])
  }

  /** The recovered track holds what the counters of the live one say was written. */
  ghost predicate InStep(s: TrackState, log: Log)
  {
    && InRange(s) && s.chunkMap == ONE_PER_CHUNK && s.handle > 0 && |s.refs| <= REFS_SIZE / 4 && GoodInfo(ClipInfo(s.info)) && GoodMetas(s.metas, s.metaWritten)
    && (s.handle > |log.tracks| ==> !s.infoWritten && s.written == Written(0, 0, 0, 0, 0) && s.metaWritten == 0)
    && (s.handle <= |log.tracks| ==>
          var c := log.tracks[s.handle - 1];
          && c.info == ClipInfo(s.info) && c.chunkMap == ONE_PER_CHUNK
          && (s.infoWritten ==> c.refs == RefBytes(s.refs))
          && c.samples == s.samples[..s.written.samples]
          && c.chunks == s.chunks[..s.written.chunks]
          && c.syncs == s.syncs[..s.written.syncs]
          && UpTo(c.metas, ClipMetas(s.metas), FirstUnwritten(s.metaWritten, |s.metas|)))
  }

  /** No record of the sync announces more items than the reader accepts. */
  predicate TablesFit(s: TrackState)
    requires InRange(s)
  {
    && |s.times| - s.written.times <= MAX_ITEM_NUMBER
    && |s.syncs| - s.written.syncs <= MAX_ITEM_NUMBER
    && |s.chunkMap| - s.written.chunkMap <= MAX_ITEM_NUMBER
    && |s.samples| - s.written.samples <= MAX_ITEM_NUMBER
    && |s.chunks| - s.written.chunks <= MAX_ITEM_NUMBER
  }

  /** The limits of the reader that the writer does not check. */
  predicate Loggable(s: TrackState)
    requires InRange(s)
  {
    && (!s.infoWritten ==> GoodConfig(s.info.kind, ClipConfig(s.info.kind, s.config)))
    && (s.samples != [] ==> TablesFit(s) && LoggableMetas(s.metas, s.metaWritten))
  }

  /** A video track whose description is to be written, but that has no decoder configuration. */
  predicate Undescribed(s: TrackState)
  {
    !s.infoWritten && s.info.kind.Video? && s.config.NoConfig?
  }

  predicate AnyUndescribed(ts: seq<TrackState>)
  {
    exists i :: 0 <= i < |ts| && Undescribed(ts[i])
  }

  /** The state of the track once the sync is done. */
  function Synced(s: TrackState): TrackState
  {
    var t := s.(infoWritten := true);
    if s.samples == [] then t
    else t.(written := Written(|s.samples|, |s.chunks|, |s.times|, |s.chunkMap|, |s.syncs|), metaWritten := |s.metas| + 1)
  }

  // ---------- metadata records ----------

  lemma ClipKeepsPairs(ms: seq<Meta>)
    requires Paired(ms) && AllShort(ms)
    ensures Paired(ClipMetas(ms))
  {
    PairedByKeys(ms, ClipMetas(ms));
  }

  lemma KeysShort(ms: seq<Meta>, metaWritten: nat)
    requires GoodMetas(ms, metaWritten) && LoggableMetas(ms, metaWritten)
    ensures AllShort(ms) && Paired(ms)
  {
    hide ValidKey, Paired;
    var k := FirstUnwritten(metaWritten, |ms|);
    forall i | 0 <= i < |ms| ensures |ms[i].key| < NAME_MAX {
      if i >= k { assert ms[i] == ms[k..][i - k]; }
    }
  }

  /** Replaying metadata records adds the clipped entries one by one, unless one of the keys was too long. */
  lemma {:induction false} MetaItemsReplay(h: u32, ms: seq<Meta>, log: Log)
    requires h == 0 || Known(h, log)
    requires forall i :: 0 <= i < |ms| ==> ValidKey(ms[i].key)
    ensures var r := ApplyAll(MetaItems(h, ms), log);
            if AllShort(ms) then
              r == Some(
                if h == 0 then log.(metas := AddAll(log.metas, ClipMetas(ms)))
                else log.(tracks := log.tracks[h - 1 := log.tracks[h - 1].(metas := AddAll(log.tracks[h - 1].metas, ClipMetas(ms)))]))
            else r == None
  {
    hide Add, Storage, Alternate, ValidKey;
    if ms == [] {
      assert h > 0 ==> log.tracks[h - 1 := log.tracks[h - 1]] == log.tracks;
    } else {
      var item := MetaItem(h, Storage(ms[0].key), ClipMeta(ms[0]));
      assert MetaItems(h, ms)[0] == item && MetaItems(h, ms)[1..] == MetaItems(h, ms[1..]);
      assert !ValidKey([]) by { EmptyKeyInvalid(); }
      assert ClipMetas(ms)[1..] == ClipMetas(ms[1..]);
      if |ms[0].key| < NAME_MAX {
        MetaItemsReplay(h, ms[1..], Apply(item, log));
        assert AllShort(ms) <==> AllShort(ms[1..]) by {
          assert forall i :: 0 <= i < |ms[1..]| ==> ms[1..][i] == ms[i + 1];
          assert forall i :: 0 < i < |ms| ==> ms[i] == ms[1..][i - 1];
        }
        if h > 0 {
          var c := log.tracks[h - 1];
          UpdateTwice(log.tracks, h - 1, c.(metas := Add(c.metas, ms[0].key, ClipMeta(ms[0]).value, true)),
                      c.(metas := AddAll(c.metas, ClipMetas(ms))));
        }
      }
    }
  }

  lemma UpdateTwice<T>(s: seq<T>, i: nat, a: T, b: T)
    requires i < |s|
    ensures s[i := a][i := b] == s[i := b]
  {
  }

  lemma EmptyKeyInvalid()
    ensures !ValidKey([])
  {
  }

  // ---------- one track ----------

  lemma ApplyOne(r: Record, log: Log)
    ensures ApplyAll([r], log) == if Replayable(r, log) then Some(Apply(r, log)) else None
  {
    assert [r][1..] == [];
  }

  lemma ApplyTwo(a: Record, b: Record, log: Log)
    ensures ApplyAll([a, b], log) ==
            if !Replayable(a, log) then None
            else if !Replayable(b, Apply(a, log)) then None
            else Some(Apply(b, Apply(a, log)))
  {
    hide Replayable, Apply;
    assert [a, b][1..] == [b];
    if Replayable(a, log) { ApplyOne(b, Apply(a, log)); }
  }

  lemma RefBytesLength(refs: seq<u32>)
    ensures |RefBytes(refs)| == |refs|
  {
    RefListLength(refs);
  }

  lemma {:induction false} RefListLength(refs: seq<u32>)
    ensures |PList(P32, refs, [])| == 4 * |refs|
  {
    if refs != [] { RefListLength(refs[1..]); }
  }

  /** The tracks after the description of `s` has been replayed. */
  function HeadTracks(s: TrackState, log: Log): seq<TrackLog>
    requires 0 < s.handle <= |log.tracks| + 1
  {
    var config := ClipConfig(s.info.kind, s.config);
    if s.infoWritten then log.tracks
    else if s.handle <= |log.tracks| then log.tracks[s.handle - 1 := log.tracks[s.handle - 1].(refs := RefBytes(s.refs), config := config)]
    else log.tracks + [TrackLog(ClipInfo(s.info), config, RefBytes(s.refs), [], [], [], ONE_PER_CHUNK, [])]
  }

  lemma HeadReplays(s: TrackState, log: Log)
    requires InStep(s, log) && s.handle <= |log.tracks| + 1
    ensures ApplyAll(HeadRecords(s), log) ==
            if s.infoWritten || GoodConfig(s.info.kind, ClipConfig(s.info.kind, s.config)) then Some(log.(tracks := HeadTracks(s, log)))
            else None
  {
    hide GoodConfig, ClipConfig, GoodMetas, RefBytes, UpTo;
    if !s.infoWritten {
      RefBytesLength(s.refs);
      var a := Trak(s.handle, ClipInfo(s.info), RefBytes(s.refs));
      var b := Stsd(s.handle, ClipConfig(s.info.kind, s.config));
      ApplyTwo(a, b, log);
      var mid := Apply(a, log);
      assert mid.tracks[s.handle - 1].info.kind == s.info.kind;
      if Known(s.handle, log) {
        UpdateTwice(log.tracks, s.handle - 1, mid.tracks[s.handle - 1], HeadTracks(s, log)[s.handle - 1]);
      } else {
        assert mid.tracks == log.tracks + [mid.tracks[s.handle - 1]];
        assert mid.tracks[s.handle - 1 := HeadTracks(s, log)[s.handle - 1]] == HeadTracks(s, log);
      }
    }
  }

  /** The recovered track after the table records of `s`. */
  function TableTrack(s: TrackState, c: TrackLog): TrackLog
    requires InRange(s)
  {
    c.(samples := c.samples + s.samples[s.written.samples..],
       chunks := c.chunks + s.chunks[s.written.chunks..],
       syncs := c.syncs + s.syncs[s.written.syncs..])
  }

  /** The log with track `h` replaced. */
  function WithTrack(log: Log, h: u32, c: TrackLog): Log
    requires Known(h, log)
  {
    log.(tracks := log.tracks[h - 1 := c])
  }

  lemma TimesAndSyncs(h: u32, times: seq<TtsEntry>, syncs: seq<u32>, log: Log)
    requires Known(h, log)
    ensures ApplyAll([Stts(h, times), Stss(h, syncs)], log) ==
            if |times| <= MAX_ITEM_NUMBER && |syncs| <= MAX_ITEM_NUMBER
            then Some(WithTrack(log, h, log.tracks[h - 1].(syncs := log.tracks[h - 1].syncs + syncs))) else None
  {
    hide ApplyAll, ValidKey, GoodConfig, GoodInfo;
    ApplyTwo(Stts(h, times), Stss(h, syncs), log);
  }

  /** A sample-to-chunk record that says what is known already. */
  lemma MapKept(h: u32, chunkMap: seq<StcEntry>, log: Log)
    requires Known(h, log) && LastEntry(log.tracks[h - 1].chunkMap, chunkMap) == log.tracks[h - 1].chunkMap
    requires |chunkMap| <= MAX_ITEM_NUMBER
    ensures Replayable(Stsc(h, chunkMap), log) && Apply(Stsc(h, chunkMap), log) == log
  {
    assert log.tracks[h - 1].(chunkMap := log.tracks[h - 1].chunkMap) == log.tracks[h - 1];
    assert log.tracks[h - 1 := log.tracks[h - 1]] == log.tracks;
  }

  lemma SamplesAdded(h: u32, samples: seq<Sample>, log: Log)
    requires Known(h, log)
    ensures Replayable(Stsz(h, samples), log) <==> |samples| <= MAX_ITEM_NUMBER
    ensures |samples| <= MAX_ITEM_NUMBER ==>
              Apply(Stsz(h, samples), log) == WithTrack(log, h, log.tracks[h - 1].(samples := log.tracks[h - 1].samples + samples))
  {
  }

  lemma TooManyEntries(h: u32, chunkMap: seq<StcEntry>, log: Log)
    requires |chunkMap| > MAX_ITEM_NUMBER
    ensures !Replayable(Stsc(h, chunkMap), log)
  {
  }

  lemma MapAndSamples(h: u32, chunkMap: seq<StcEntry>, samples: seq<Sample>, log: Log)
    requires Known(h, log) && LastEntry(log.tracks[h - 1].chunkMap, chunkMap) == log.tracks[h - 1].chunkMap
    ensures ApplyAll([Stsc(h, chunkMap), Stsz(h, samples)], log) ==
            if |chunkMap| <= MAX_ITEM_NUMBER && |samples| <= MAX_ITEM_NUMBER
            then Some(WithTrack(log, h, log.tracks[h - 1].(samples := log.tracks[h - 1].samples + samples))) else None
  {
    hide ApplyAll, Apply, Replayable, LastEntry;
    ApplyTwo(Stsc(h, chunkMap), Stsz(h, samples), log);
    SamplesAdded(h, samples, log);
    if |chunkMap| <= MAX_ITEM_NUMBER { MapKept(h, chunkMap, log); } else { TooManyEntries(h, chunkMap, log); }
  }

  lemma Offsets(h: u32, wide: bool, offsets: seq<u64>, log: Log)
    requires Known(h, log)
    ensures ApplyAll([Stco(h, wide, offsets)], log) ==
            if |offsets| <= MAX_ITEM_NUMBER
            then Some(WithTrack(log, h, log.tracks[h - 1].(chunks := log.tracks[h - 1].chunks + offsets))) else None
  {
    hide ApplyAll, ValidKey, GoodConfig, GoodInfo;
    ApplyOne(Stco(h, wide, offsets), log);
  }

  lemma TablesSplit(s: TrackState)
    requires InRange(s) && s.samples != []
    ensures TableRecords(s) ==
            [Stts(s.handle, s.times[s.written.times..]), Stss(s.handle, s.syncs[s.written.syncs..])] +
            ([Stsc(s.handle, s.chunkMap[s.written.chunkMap..]), Stsz(s.handle, s.samples[s.written.samples..])] +
             [Stco(s.handle, s.chunks[|s.chunks| - 1] > U32_MAX, s.chunks[s.written.chunks..])])
  {
  }

  lemma TablesReplay(s: TrackState, log: Log)
    requires InRange(s) && s.samples != [] && Known(s.handle, log)
    requires s.chunkMap == log.tracks[s.handle - 1].chunkMap == ONE_PER_CHUNK
    ensures ApplyAll(TableRecords(s), log) ==
            if TablesFit(s) then Some(WithTrack(log, s.handle, TableTrack(s, log.tracks[s.handle - 1]))) else None
  {
    hide Apply, Replayable, ApplyAll, TableRecords;
    var h := s.handle;
    TablesSplit(s);
    var a := [Stts(h, s.times[s.written.times..]), Stss(h, s.syncs[s.written.syncs..])];
    var b := [Stsc(h, s.chunkMap[s.written.chunkMap..]), Stsz(h, s.samples[s.written.samples..])];
    var c0 := log.tracks[h - 1];
    var c1 := c0.(syncs := c0.syncs + s.syncs[s.written.syncs..]);
    var c2 := c1.(samples := c1.samples + s.samples[s.written.samples..]);
    var wide := s.chunks[|s.chunks| - 1] > U32_MAX;
    var c := [Stco(h, wide, s.chunks[s.written.chunks..])];
    ApplyAllAppend(a, b + c, log);
    TimesAndSyncs(h, s.times[s.written.times..], s.syncs[s.written.syncs..], log);
    var log1 := WithTrack(log, h, c1);
    ApplyAllAppend(b, c, log1);
    MapAndSamples(h, s.chunkMap[s.written.chunkMap..], s.samples[s.written.samples..], log1);
    UpdateTwice(log.tracks, h - 1, c1, c2);
    var log2 := WithTrack(log, h, c2);
    Offsets(h, wide, s.chunks[s.written.chunks..], log2);
    UpdateTwice(log.tracks, h - 1, c2, TableTrack(s, c0));
  }

  /** Everything but track `h` and what comes after the old end stays. */
  predicate OthersKept(h: u32, before: Log, after: Log)
  {
    && |before.tracks| <= |after.tracks| && (|after.tracks| > |before.tracks| ==> |after.tracks| == h == |before.tracks| + 1)
    && (forall k :: 0 <= k < |before.tracks| && k != h - 1 ==> after.tracks[k] == before.tracks[k])
    && after.metas == before.metas && after.cover == before.cover
  }

  lemma MetasReplay(s: TrackState, log: Log)
    requires Known(s.handle, log) && GoodMetas(s.metas, s.metaWritten)
    requires UpTo(log.tracks[s.handle - 1].metas, ClipMetas(s.metas), FirstUnwritten(s.metaWritten, |s.metas|))
    ensures ApplyAll(MetaItems(s.handle, s.metas[FirstUnwritten(s.metaWritten, |s.metas|)..]), log) ==
            if LoggableMetas(s.metas, s.metaWritten) then Some(WithTrack(log, s.handle, log.tracks[s.handle - 1].(metas := ClipMetas(s.metas))))
            else None
  {
    hide UpTo, Paired, ApplyAll, ValidKey, AllShort;
    var k := FirstUnwritten(s.metaWritten, |s.metas|);
    MetaItemsReplay(s.handle, s.metas[k..], log);
    assert ClipMetas(s.metas[k..]) == ClipMetas(s.metas)[k..];
    if LoggableMetas(s.metas, s.metaWritten) {
      KeysShort(s.metas, s.metaWritten);
      ClipKeepsPairs(s.metas);
      ReplayMetas(log.tracks[s.handle - 1].metas, ClipMetas(s.metas), k);
    }
  }

  /** The recovered track once a sync of `s` has been replayed. */
  function SyncedTrack(s: TrackState, c: TrackLog): TrackLog
    requires InRange(s)
  {
    if s.samples == [] then c else TableTrack(s, c).(metas := ClipMetas(s.metas))
  }

  /** A sync of one track replays exactly when it is within the reader's limits, and then only that track changes. */
  lemma TrackReplays(s: TrackState, log: Log)
    requires InStep(s, log) && s.handle <= |log.tracks| + 1
    ensures ApplyAll(TrackRecords(s), log).Some? <==> Loggable(s)
    ensures Loggable(s) ==>
              var after := ApplyAll(TrackRecords(s), log).value;
              && Known(s.handle, after) && OthersKept(s.handle, log, after)
              && after.tracks[s.handle - 1] == SyncedTrack(s, HeadTracks(s, log)[s.handle - 1])
  {
    hide ApplyAll, HeadRecords, TableRecords, MetaItems, GoodConfig, TablesFit, LoggableMetas, ClipConfig, UpTo, GoodMetas, RefBytes, ClipMetas;
    HeadReplays(s, log);
    var mid := log.(tracks := HeadTracks(s, log));
    HeadKeeps(s, log);
    if s.samples == [] {
      assert TrackRecords(s) == HeadRecords(s);
    } else {
      var h := s.handle;
      var tables := TableRecords(s);
      var metas := MetaItems(h, s.metas[FirstUnwritten(s.metaWritten, |s.metas|)..]);
      ApplyAllAppend(HeadRecords(s), tables + metas, log);
      ApplyAllAppend(tables, metas, mid);
      TablesReplay(s, mid);
      var t := WithTrack(mid, h, TableTrack(s, mid.tracks[h - 1]));
      MetasReplay(s, t);
      UpdateTwice(mid.tracks, h - 1, t.tracks[h - 1], t.tracks[h - 1].(metas := ClipMetas(s.metas)));
    }
  }

  lemma HeadKeeps(s: TrackState, log: Log)
    requires InStep(s, log) && s.handle <= |log.tracks| + 1
    ensures var mid := log.(tracks := HeadTracks(s, log));
            && Known(s.handle, mid) && OthersKept(s.handle, log, mid)
            && var c := mid.tracks[s.handle - 1];
               && c.info == ClipInfo(s.info) && c.refs == RefBytes(s.refs) && c.chunkMap == ONE_PER_CHUNK
               && c.samples == s.samples[..s.written.samples] && c.chunks == s.chunks[..s.written.chunks]
               && c.syncs == s.syncs[..s.written.syncs]
               && UpTo(c.metas, ClipMetas(s.metas), FirstUnwritten(s.metaWritten, |s.metas|))
  {
    hide RefBytes, GoodMetas, Mates, ClipConfig, GoodInfo;
  }

  /** What the log `after` the sync says of `s`: all of its tables, and its description as first or last written. */
  ghost predicate Captured(s: TrackState, before: Log, after: Log)
  {
    && InRange(s) && Known(s.handle, after) && InStep(Synced(s), after)
    && var c := after.tracks[s.handle - 1];
    && c.samples == s.samples && c.chunks == s.chunks && c.chunkMap == s.chunkMap && c.info == ClipInfo(s.info) && c.refs == RefBytes(s.refs)
    && (s.samples != [] ==> c.syncs == s.syncs && c.metas == ClipMetas(s.metas))
    && (!s.infoWritten ==> c.config == ClipConfig(s.info.kind, s.config))
    && (s.infoWritten ==> s.handle <= |before.tracks| && c.config == before.tracks[s.handle - 1].config)
  }

  lemma SplitAt<T>(s: seq<T>, i: nat)
    requires i <= |s|
    ensures s[..i] + s[i..] == s && s[..|s|] == s
  {
  }

  /** With nothing left to write, all the keys were short and the recovered metadata is complete. */
  lemma MetasSynced(ms: seq<Meta>, metaWritten: nat)
    requires GoodMetas(ms, metaWritten) && LoggableMetas(ms, metaWritten)
    ensures GoodMetas(ms, |ms| + 1) && UpTo(ClipMetas(ms), ClipMetas(ms), FirstUnwritten(|ms| + 1, |ms|))
  {
    hide ValidKey, Paired, Mates, Alternate;
    KeysShort(ms, metaWritten);
  }

  /** After the sync the recovered track is in step with the live one again. */
  lemma SyncedInStep(s: TrackState, log: Log, after: Log)
    requires InStep(s, log) && s.handle <= |log.tracks| + 1 && Loggable(s)
    requires Known(s.handle, after)
    requires after.tracks[s.handle - 1] == SyncedTrack(s, HeadTracks(s, log)[s.handle - 1])
    ensures Captured(s, log, after)
  {
    hide RefBytes, ClipConfig, GoodInfo, ClipInfo, ClipMetas, GoodConfig, TablesFit, GoodMetas, LoggableMetas, UpTo, FirstUnwritten;
    HeadKeeps(s, log);
    if s.samples != [] {
      SplitAt(s.samples, s.written.samples);
      SplitAt(s.chunks, s.written.chunks);
      SplitAt(s.syncs, s.written.syncs);
      MetasSynced(s.metas, s.metaWritten);
    }
  }

  /** A sync of one track leaves the others in step. */
  lemma OthersInStep(u: TrackState, h: u32, before: Log, after: Log)
    requires InStep(u, before) && u.handle != h && OthersKept(h, before, after)
    ensures InStep(u, after)
  {
    hide GoodMetas, GoodInfo, UpTo, RefBytes, ClipInfo, ClipMetas;
  }

  // ---------- a whole sync ----------

  function AllTrackRecords(ts: seq<TrackState>): seq<Record>
    requires AllInRange(ts)
  {
    if ts == [] then [] else TrackRecords(ts[0]) + AllTrackRecords(ts[1..])
  }

  predicate DistinctHandles(ts: seq<TrackState>)
  {
    forall i, j :: 0 <= i < j < |ts| ==> ts[i].handle != ts[j].handle
  }

  /** Tracks the journal has not seen come in the order of their handles, right after the `n` it has. */
  predicate NewInOrder(ts: seq<TrackState>, n: nat)
  {
    ts == [] || (1 <= ts[0].handle <= n + 1 && NewInOrder(ts[1..], Max(n, ts[0].handle)))
  }

  predicate AllInRange(ts: seq<TrackState>)
  {
    forall i :: 0 <= i < |ts| ==> InRange(ts[i])
  }

  predicate AllLoggable(ts: seq<TrackState>)
    requires AllInRange(ts)
  {
    forall i :: 0 <= i < |ts| ==> Loggable(ts[i])
  }

  /** Tracks not named by `ts` stay. */
  predicate RestKept(ts: seq<TrackState>, before: Log, after: Log)
  {
    && |before.tracks| <= |after.tracks| && after.metas == before.metas && after.cover == before.cover
    && forall k :: 0 <= k < |before.tracks| && (forall i :: 0 <= i < |ts| ==> ts[i].handle != k + 1) ==> after.tracks[k] == before.tracks[k]
  }

  function LastHandle(ts: seq<TrackState>, n: nat): nat
  {
    if ts == [] then n else LastHandle(ts[1..], Max(n, ts[0].handle))
  }

  /** A sync of all the tracks replays exactly when every track is within the limits, and captures every track. */
  lemma {:induction false} TracksReplay(ts: seq<TrackState>, log: Log)
    requires AllInRange(ts) && DistinctHandles(ts) && NewInOrder(ts, |log.tracks|)
    requires forall i :: 0 <= i < |ts| ==> InStep(ts[i], log)
    ensures ApplyAll(AllTrackRecords(ts), log).Some? <==> AllLoggable(ts)
    ensures AllLoggable(ts) ==>
              var after := ApplyAll(AllTrackRecords(ts), log).value;
              && RestKept(ts, log, after) && |after.tracks| == LastHandle(ts, |log.tracks|)
              && forall i :: 0 <= i < |ts| ==> Captured(ts[i], log, after)
    decreases |ts|
  {
    hide ApplyAll, TrackRecords, InStep, Captured, Loggable, SyncedTrack, HeadTracks;
    if ts != [] {
      var s, rest := ts[0], ts[1..];
      assert InStep(s, log);
      assert AllInRange(rest) by {
        assert forall i :: 0 <= i < |rest| ==> rest[i] == ts[i + 1];
      }
      TrackReplays(s, log);
      ApplyAllAppend(TrackRecords(s), AllTrackRecords(rest), log);
      assert AllLoggable(ts) ==> Loggable(s) && AllLoggable(rest);
      if Loggable(s) {
        var mid := ApplyAll(TrackRecords(s), log).value;
        SyncedInStep(s, log, mid);
        forall i | 0 <= i < |rest| ensures InStep(rest[i], mid) {
          assert rest[i] == ts[i + 1];
          OthersInStep(rest[i], s.handle, log, mid);
        }
        TracksReplay(rest, mid);
        if AllLoggable(rest) {
          var after := ApplyAll(AllTrackRecords(rest), mid).value;
          assert Captured(s, log, mid);
          FirstCaptured(ts, log, mid, after);
          RestCaptured(ts, log, mid, after);
        }
        assert AllLoggable(rest) ==> AllLoggable(ts) by {
          assert forall i :: 0 < i < |ts| ==> ts[i] == rest[i - 1];
        }
      }
    } else {
      EmptyReplay(log);
    }
  }

  lemma EmptyReplay(log: Log)
    ensures ApplyAll([], log) == Some(log)
  {
  }

  lemma FirstCaptured(ts: seq<TrackState>, log: Log, mid: Log, after: Log)
    requires ts != [] && DistinctHandles(ts)
    requires Captured(ts[0], log, mid) && RestKept(ts[1..], mid, after)
    ensures Captured(ts[0], log, after)
  {
    hide GoodMetas, UpTo, GoodInfo, ClipMetas, RefBytes, ClipConfig, ClipInfo;
    assert forall i :: 0 <= i < |ts[1..]| ==> ts[1..][i] == ts[i + 1];
    assert after.tracks[ts[0].handle - 1] == mid.tracks[ts[0].handle - 1];
  }

  lemma RestCaptured(ts: seq<TrackState>, log: Log, mid: Log, after: Log)
    requires ts != [] && DistinctHandles(ts) && OthersKept(ts[0].handle, log, mid) && RestKept(ts[1..], mid, after)
    requires forall i :: 0 <= i < |ts| - 1 ==> InStep(ts[1..][i], log) && Captured(ts[1..][i], mid, after)
    ensures RestKept(ts, log, after)
    ensures forall i :: 1 <= i < |ts| ==> Captured(ts[i], log, after)
  {
    hide GoodMetas, UpTo, GoodInfo, ClipMetas, RefBytes, ClipConfig, ClipInfo;
    assert forall i :: 1 <= i < |ts| ==> ts[i] == ts[1..][i - 1];
    forall i | 1 <= i < |ts| ensures Captured(ts[i], log, after) {
      assert InStep(ts[1..][i - 1], log) && Captured(ts[1..][i - 1], mid, after);
    }
  }

  function CoverRecords(cover: Option<(u32, seq<byte>)>): seq<Record>
  {
    if cover.None? then [] else [Cover(cover.value.0, cover.value.1)]
  }

  /** Everything a sync appends; `cover` is the thumbnail still to be written. */
  function SyncRecords(ts: seq<TrackState>, metas: seq<Meta>, metaWritten: nat, cover: Option<(u32, seq<byte>)>): seq<Record>
    requires AllInRange(ts)
  {
    AllTrackRecords(ts) + (MetaItems(0, metas[FirstUnwritten(metaWritten, |metas|)..]) + CoverRecords(cover))
  }

  /** Every record of the sync is within the limits of the reader. */
  predicate SyncLoggable(ts: seq<TrackState>, metas: seq<Meta>, metaWritten: nat, cover: Option<(u32, seq<byte>)>)
    requires AllInRange(ts)
  {
    AllLoggable(ts) && LoggableMetas(metas, metaWritten) && (cover.Some? ==> |cover.value.1| <= MAX_ALLOC_SIZE)
  }

  /** The recovered file metadata is up to date with what was written; an override after that makes it stale. */
  ghost predicate FileMetasInStep(metas: seq<Meta>, metaWritten: nat, stale: bool, log: Log)
  {
    GoodMetas(metas, metaWritten) && (!stale ==> UpTo(log.metas, ClipMetas(metas), FirstUnwritten(metaWritten, |metas|)))
  }

  lemma CapturedByTracks(s: TrackState, before: Log, mid: Log, after: Log)
    requires Captured(s, before, mid) && after.tracks == mid.tracks
    ensures Captured(s, before, after)
  {
    hide GoodMetas, UpTo, GoodInfo, ClipMetas, RefBytes, ClipConfig, ClipInfo;
  }

  lemma FileMetasReplay(metas: seq<Meta>, metaWritten: nat, stale: bool, log: Log)
    requires FileMetasInStep(metas, metaWritten, stale, log)
    ensures var r := ApplyAll(MetaItems(0, metas[FirstUnwritten(metaWritten, |metas|)..]), log);
            && (r.Some? <==> LoggableMetas(metas, metaWritten))
            && (r.Some? ==> r.value.tracks == log.tracks && r.value.cover == log.cover)
            && (r.Some? && !stale ==> r.value.metas == ClipMetas(metas))
            && (r.Some? ==> FileMetasInStep(metas, |metas| + 1, stale, r.value))
  {
    hide UpTo, Paired, ApplyAll, ValidKey, AllShort;
    var k := FirstUnwritten(metaWritten, |metas|);
    MetaItemsReplay(0, metas[k..], log);
    assert ClipMetas(metas[k..]) == ClipMetas(metas)[k..];
    if LoggableMetas(metas, metaWritten) {
      KeysShort(metas, metaWritten);
      ClipKeepsPairs(metas);
      MetasSynced(metas, metaWritten);
      if !stale { ReplayMetas(log.metas, ClipMetas(metas), k); }
    }
  }

  /** A sync replays exactly when all its records are within the limits; then it captures the live tables. */
  lemma SyncReplays(ts: seq<TrackState>, metas: seq<Meta>, metaWritten: nat, stale: bool, cover: Option<(u32, seq<byte>)>, log: Log)
    requires AllInRange(ts) && DistinctHandles(ts) && NewInOrder(ts, |log.tracks|)
    requires forall i :: 0 <= i < |ts| ==> InStep(ts[i], log)
    requires FileMetasInStep(metas, metaWritten, stale, log)
    ensures ApplyAll(SyncRecords(ts, metas, metaWritten, cover), log).Some? <==> SyncLoggable(ts, metas, metaWritten, cover)
    ensures SyncLoggable(ts, metas, metaWritten, cover) ==>
              var after := ApplyAll(SyncRecords(ts, metas, metaWritten, cover), log).value;
              && |after.tracks| == LastHandle(ts, |log.tracks|)
              && (forall i :: 0 <= i < |ts| ==> Captured(ts[i], log, after))
              && FileMetasInStep(metas, |metas| + 1, stale, after)
              && (!stale ==> after.metas == ClipMetas(metas))
              && after.cover == if cover.Some? then cover else log.cover
  {
    hide ApplyAll, InStep, Captured, Loggable, FileMetasInStep, LoggableMetas, MetaItems, AllTrackRecords;
    var items := MetaItems(0, metas[FirstUnwritten(metaWritten, |metas|)..]);
    TracksReplay(ts, log);
    ApplyAllAppend(AllTrackRecords(ts), items + CoverRecords(cover), log);
    if AllLoggable(ts) {
      var mid := ApplyAll(AllTrackRecords(ts), log).value;
      FileMetasFrame(metas, metaWritten, stale, log, mid);
      FileMetasReplay(metas, metaWritten, stale, mid);
      ApplyAllAppend(items, CoverRecords(cover), mid);
      if LoggableMetas(metas, metaWritten) {
        var next := ApplyAll(items, mid).value;
        CoverReplays(cover, next);
        if SyncLoggable(ts, metas, metaWritten, cover) {
          var after := ApplyAll(CoverRecords(cover), next).value;
          FileMetasFrame(metas, |metas| + 1, stale, next, after);
          forall i | 0 <= i < |ts| ensures Captured(ts[i], log, after) {
            assert Captured(ts[i], log, mid);
            CapturedByTracks(ts[i], log, mid, after);
          }
        }
      }
    }
  }

  lemma FileMetasFrame(metas: seq<Meta>, metaWritten: nat, stale: bool, a: Log, b: Log)
    requires FileMetasInStep(metas, metaWritten, stale, a) && a.metas == b.metas
    ensures FileMetasInStep(metas, metaWritten, stale, b)
  {
  }

  lemma CoverReplays(cover: Option<(u32, seq<byte>)>, log: Log)
    ensures ApplyAll(CoverRecords(cover), log) ==
            if cover.None? then Some(log)
            else if |cover.value.1| <= MAX_ALLOC_SIZE then Some(log.(cover := cover)) else None
  {
    if cover.Some? {
      ApplyOne(Cover(cover.value.0, cover.value.1), log);
    }
  }
}
