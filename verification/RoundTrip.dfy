/**
 A closed recording read back by the demuxer: the walk finds the tables that were
 written, and their expansion gives the samples that were recorded.
 */
module RoundTrip {
  import opened Bytes
  import opened Wrappers
  import opened TimeTable
  import opened ChunkMap
  import opened BoxLemmas
  import opened BoxTree
  import opened BoxWalk
  import opened FileLayout
  import opened Movie
  import opened MuxTrack
  import opened Mux
  import opened MuxSync
  import opened MediaInput
  import opened ConfigBytes
  import opened Timescale
  import C = ChapterReader
  import Demux
  import F = FinalMetadata
  import M = Metadata
  import T = MovieTexts
  import X = TextReader
  import J = JournalFormat
  import R = JournalReplay
  import S = Search
  import D = DemuxTrack
  import SF = DataSafety
  import TrackOrder

  // ---------- the walk over the whole file ----------

  lemma LegibleConcat(a: seq<Box>, b: seq<Box>)
    requires AllLegible(a) && AllLegible(b)
    ensures AllLegible(a + b)
  {
    hide Legible, Bounded;
  }

  lemma LegibleOne(b: Box)
    requires Legible(b)
    ensures AllLegible([b])
  {
  }

  lemma FtypLegible()
    ensures Legible(Ftyp()) && WellPlaced(ROOT, Ftyp())
  {
    hide BE32, WordBytes;
    assert |Ftyp().payload| == 24;
  }

  /** Boxes around the movie box that tell the demuxer nothing. */
  lemma PlainBoxes(pad: seq<byte>, data: seq<byte>)
    requires |pad| < TWO32 && |data| + 16 < TWO63
    ensures AllLegible(PadBoxes(pad)) && Inert(PadBoxes(pad)) && AllLegible(MdatBoxes(data)) && Inert(MdatBoxes(data))
    ensures AllLegible([Ftyp()])
  {
    hide WordBytes, BE32, BE64, AllLegible;
    FtypLegible();
    LegibleOne(Ftyp());
    NoBoxes();
    if |pad| >= 8 { LegibleOne(Opaque(FREE, pad[8..])); }
    if 8 + |data| <= U32_MAX {
      LegibleOne(Opaque(FREE, []));
      LegibleOne(Opaque(MDAT, data));
      LegibleConcat([Opaque(FREE, [])], [Opaque(MDAT, data)]);
      assert [Opaque(FREE, [])] + [Opaque(MDAT, data)] == [Opaque(FREE, []), Opaque(MDAT, data)];
    } else {
      LegibleOne(Large(MDAT, data));
    }
  }

  lemma NoBoxes()
    ensures AllLegible([])
  {
  }

  lemma InertConcat(a: seq<Box>, b: seq<Box>)
    requires Inert(a) && Inert(b)
    ensures Inert(a + b)
  {
    hide WellTyped;
  }

  lemma PlacedConcat(a: seq<Box>, b: seq<Box>)
    requires AllPlaced(ROOT, a) && AllPlaced(ROOT, b)
    ensures AllPlaced(ROOT, a + b)
  {
    hide WellPlaced;
  }

  /** The layout of a finished file can be read, and tells what the movie box tells. */
  lemma LayoutVisited(base: nat, c: seq<byte>, data: seq<byte>, moov: Box)
    requires Bounded(moov) && 40 <= base <= |c| && base < TWO32 && |data| + 16 < TWO63
    requires Legible(moov) && WellPlaced(ROOT, moov)
    ensures var bs := Layout(base, c, data, moov);
            && AllLegible(bs) && AllPlaced(ROOT, bs) && StartsWithFtyp(bs)
            && VisitAll(bs, NOTHING_FOUND, TOP) == Visit(moov, NOTHING_FOUND, TOP)
  {
    hide Legible, AllLegible, Visit, VisitAll, BoxBytes, PadBoxes, MdatBoxes, WordBytes, Inert, AllPlaced;
    var n, v := 32 + |BoxBytes(moov)|, NOTHING_FOUND;
    LegibleOne(moov);
    PlacedOne(moov);
    FtypLegible();
    PlacedOne(Ftyp());
    FtypInert(v);
    if n <= base {
      var rest := PadBoxes(c[n..base]) + MdatBoxes(data);
      PlainBoxes(c[n..base], data);
      LegibleConcat(PadBoxes(c[n..base]), MdatBoxes(data));
      InertConcat(PadBoxes(c[n..base]), MdatBoxes(data));
      LegibleConcat([moov], rest);
      LegibleConcat([Ftyp()], [moov] + rest);
      InertPlaced(rest, ROOT);
      PlacedConcat([moov], rest);
      PlacedConcat([Ftyp()], [moov] + rest);
      VisitCons(Ftyp(), [moov] + rest, v, TOP);
      VisitCons(moov, rest, v, TOP);
      if Visit(moov, v, TOP).Some? { VisitInert(rest, Visit(moov, v, TOP).value, TOP); }
    } else {
      var before := PadBoxes(c[32..base]) + MdatBoxes(data);
      PlainBoxes(c[32..base], data);
      LegibleConcat(MdatBoxes(data), [moov]);
      LegibleConcat(PadBoxes(c[32..base]), MdatBoxes(data) + [moov]);
      InertConcat(PadBoxes(c[32..base]), MdatBoxes(data));
      InertPlaced(before, ROOT);
      PlacedConcat(before, [moov]);
      LegibleConcat([Ftyp()], PadBoxes(c[32..base]) + (MdatBoxes(data) + [moov]));
      assert PadBoxes(c[32..base]) + (MdatBoxes(data) + [moov]) == before + [moov];
      PlacedConcat([Ftyp()], before + [moov]);
      VisitCons(Ftyp(), before + [moov], v, TOP);
      VisitAllAppend(before, [moov], v, TOP);
      VisitInert(before, v, TOP);
      VisitCons(moov, [], v, TOP);
    }
  }

  lemma PlacedOne(b: Box)
    requires WellPlaced(ROOT, b)
    ensures AllPlaced(ROOT, [b])
  {
  }

  lemma FtypInert(v: Found)
    ensures Visit(Ftyp(), v, TOP) == Some(v) && StartsWithFtyp([Ftyp()])
  {
  }

  /**
     The demuxer's walk over a finished file: it fails without a timescale or with a
     value that cannot be read, succeeds when every description can be read back whole,
     and then or otherwise, if it succeeds, finds the tables of the tracks that have
     samples, and the metadata.
  */
  method ReadTables(f: MediaFile, ghost base: nat, ghost data: seq<byte>, ghost moov: Box, ghost rows: seq<TrackRow>,
                    ghost timescale: u32, ghost ms: seq<M.Meta>, ghost c: T.CoverArt, ghost fixed: Fixed)
    returns (seen: Seen, ok: bool)
    requires Tiled(base, f.bytes, data, moov) && base < TWO32 && |f.bytes| < TWO63 && |BoxBytes(moov)| < TWO32 && f.pos == 0
    requires moov == Moov(rows, timescale, ms, c, fixed)
    requires AllWritable(rows) && AllDescribable(rows) && Timescaled(rows) && AllPlain(rows) && T.PlainMetas(ms)
    modifies f`pos
    ensures Follows(ok, seen, MovieTells(rows, timescale, ms, c)) && Sound(seen)
    ensures ok ==> seen.timescale == timescale && (DurationsFit(rows) ==> LastsAsLongest(rows, seen.duration))
  {
    hide LastsAsLongest, DurationsFit, MovieTicks;
    hide Moov, Legible, AllLegible, Visit, VisitAll, BoxBytes, AllBytes, Layout, AllWritable, AllPlain, T.PlainMetas, Bounded, AllBounded, WellTyped;
    hide AllDescribable, Timescaled, Refusal, Follows, MovieFound, MovieTells, AllPlaced, WellPlaced, Sound, Agrees;
    MoovWellTyped(rows, timescale, ms, c, fixed);
    MoovRefusal(rows, timescale, ms, c, fixed);
    FitsLegible(moov);
    VisitMoov(rows, timescale, ms, c, fixed);
    MoovPlaced(rows, timescale, ms, c, fixed);
    LayoutVisited(base, f.bytes, data, moov);
    var w := new Walker(f);
    assert f.bytes[0..|f.bytes|] == f.bytes;
    NothingAgrees();
    var r := w.ReadChildren(TOP, 0, |f.bytes|, true, Layout(base, f.bytes, data, moov), NOTHING_FOUND);
    if r.Consumed? { TicksSeen(w.seen, MovieTells(rows, timescale, ms, c)); }
    return w.seen, r.Consumed?;
  }

  lemma TicksSeen(seen: Seen, v: Option<Found>)
    requires Follows(true, seen, v)
    ensures v.Some? && seen.timescale == v.value.timescale && seen.duration == v.value.duration
  {
  }

  lemma MoovPlaced(rows: seq<TrackRow>, timescale: u32, ms: seq<M.Meta>, c: T.CoverArt, fixed: Fixed)
    ensures WellPlaced(ROOT, Moov(rows, timescale, ms, c, fixed))
  {
  }

  lemma NothingAgrees()
    ensures Agrees(NOTHING_SEEN, NOTHING_FOUND) && Sound(NOTHING_SEEN)
  {
  }

  // ---------- the tracks among the tables ----------

  /** The place of a track among those that have samples. */
  function Place(rows: seq<TrackRow>, i: nat): nat
    requires i <= |rows|
  {
    if i == 0 then 0 else Place(rows[1..], i - 1) + if rows[0].state.samples == [] then 0 else 1
  }

  lemma {:induction false} TablesAtPlace(rows: seq<TrackRow>, i: nat)
    requires i < |rows| && rows[i].state.samples != []
    ensures Place(rows, i) < |AllTables(rows)| == |AllTold(rows)|
    ensures AllTables(rows)[Place(rows, i)] == TablesOf(rows[i]) && AllTold(rows)[Place(rows, i)] == ToldOf(rows[i].state)
  {
    hide TablesOf, ToldOf;
    SameCount(rows);
    if i > 0 { TablesAtPlace(rows[1..], i - 1); }
  }

  lemma {:induction false} SameCount(rows: seq<TrackRow>)
    ensures |AllTables(rows)| == |AllTold(rows)|
  {
    hide TablesOf, ToldOf;
    if rows != [] { SameCount(rows[1..]); }
  }

  /** Every table found is that of a track with samples. */
  lemma {:induction false} TrackOfTables(rows: seq<TrackRow>, k: nat) returns (i: nat)
    requires k < |AllTables(rows)|
    ensures i < |rows| && rows[i].state.samples != [] && Place(rows, i) == k && AllTables(rows)[k] == TablesOf(rows[i])
  {
    hide TablesOf;
    if rows[0].state.samples != [] && k == 0 {
      i := 0;
    } else {
      i := TrackOfTables(rows[1..], if rows[0].state.samples == [] then k else k - 1);
      i := i + 1;
    }
  }

  // ---------- expansion ----------

  /** The number of samples that the times account for is the number of samples: the first step is not 2^32-1. */
  predicate TimesCounted(s: R.TrackState)
  {
    |s.samples| <= 1 || Step32(s.samples[0].dts, s.samples[1].dts) != U32_MAX
  }

  lemma {:induction false} SumBounded(d: seq<u32>)
    ensures Sum(d) <= |d| * U32_MAX
  {
    if d != [] {
      var k := |d| - 1;
      SumBounded(d[..k]);
      assert |d| * U32_MAX == k * U32_MAX + U32_MAX;
    }
  }

  /** A track as the demuxer builds it from the tables it found. */
  ghost predicate BuiltFrom(t: D.Track, s: R.TrackState)
    reads t
  {
    && t.sampleSize == SizesOf(s.samples) && t.chunkOffset == s.chunks && t.timeToSample == s.times
    && t.sampleToChunk == s.chunkMap && t.sync == if s.syncs == [] then None else Some(s.syncs)
  }

  /** What the muxer has of a track when it writes the tables. */
  ghost predicate Writable(s: R.TrackState)
  {
    && TablesWritable(s) && s.chunkMap == R.ONE_PER_CHUNK && OwnChunks(s.samples, s.chunks)
    && s.times == Entries(DtsOf(s.samples)) && SyncsWithin(s.syncs, U32_MAX)
  }

  /** The demuxer's checks pass exactly when the times account for all samples. */
  lemma ConsistentWhenCounted(t: D.Track, s: R.TrackState)
    requires Writable(s) && BuiltFrom(t, s)
    ensures t.Readable() && (t.Consistent() <==> TimesCounted(s))
  {
    hide Entries, Deltas, SyncsWithin, TimesCounted;
    OnePerChunk(|s.chunks|);
    CountedAll(s);
    if |Deltas(s.times)| == |s.samples| { StepsShort(Deltas(s.times)); }
  }

  lemma CountedAll(s: R.TrackState)
    requires Writable(s)
    ensures |Deltas(s.times)| == |s.samples| <==> TimesCounted(s)
  {
    hide Entries, Diffs, Deltas, SyncsWithin, OwnChunks;
    EntriesCount(DtsOf(s.samples));
    if |s.samples| > 1 { StepAt(s.samples, 0); }
  }

  lemma StepsShort(d: seq<u32>)
    requires |d| < TWO32
    ensures Sum(d) < TWO64
  {
    SumBounded(d);
    assert |d| * U32_MAX <= U32_MAX * U32_MAX;
  }

  /** The demuxer has the samples that were recorded. */
  ghost predicate SameSamples(t: D.Track, s: R.TrackState)
    reads t`sampleDecodingTime, t`sampleOffset, t`sampleSize, t`sync
  {
    && |t.sampleSize| == |t.sampleOffset| == |t.sampleDecodingTime| == |s.samples|
    && (forall i :: 0 <= i < |s.samples| ==> t.sampleSize[i] == s.samples[i].size && t.sampleOffset[i] == s.samples[i].offset)
    && (Rebased(DtsOf(s.samples), t.sampleDecodingTime) <==> StepsFit(DtsOf(s.samples)))
    && (forall i :: 0 <= i < |s.samples| ==> (S.IsSync(t.sync, i) <==> s.syncs == [] || i + 1 in s.syncs))
  }

  lemma BuiltSame(t: D.Track, s: R.TrackState)
    requires Writable(s) && BuiltFrom(t, s)
    requires t.Consistent() && t.sampleDecodingTime == Times(t.timeToSample) && |t.sampleOffset| == |t.sampleSize|
    requires D.Filled(t.sampleToChunk, t.chunkOffset, t.sampleSize, t.sampleOffset, |t.chunkOffset|)
    ensures SameSamples(t, s)
  {
    hide Entries, Times, Rebased, StepsFit, SyncsWithin;
    TimesRoundTrip(DtsOf(s.samples));
    forall i | 0 <= i < |s.samples| ensures t.sampleOffset[i] == s.samples[i].offset {
      OnePerChunk(i);
      OnePerChunk(i + 1);
      assert OffsetsOfChunk(t.sampleToChunk, t.chunkOffset, t.sampleSize, t.sampleOffset, i);
      assert t.sampleSize[i..i] == [];
    }
  }

  lemma BuiltReady(t: D.Track, s: R.TrackState)
    requires Writable(s) && BuiltFrom(t, s) && t.Consistent()
    requires t.sampleDecodingTime == Times(t.timeToSample) && |t.sampleOffset| == |t.sampleSize|
    requires t.nextSample == 0 && t.pendingSeekTime == 0 && t.target == 0
    ensures t.Valid()
  {
    hide Entries, Times, Deltas, OwnChunks;
    t.BuiltIsValid();
  }

  function Or<T>(o: Option<seq<T>>): seq<T>
  {
    if o.Some? then o.value else []
  }

  /** The demuxer's track has the number, the timescale and the duration that were written. */
  ghost predicate SameHead(t: D.Track, r: TrackRow)
  {
    t.id == r.id && t.timescale == r.state.info.timescale && t.duration == r.duration
  }

  lemma FromTables(r: TrackRow)
    ensures var t := TablesOf(r);
            && t.id == r.id && t.timescale == r.state.info.timescale && t.duration == r.duration
            && t.sizes == Some(SizesOf(r.state.samples)) && t.offsets == Some(r.state.chunks) && t.times == Some(r.state.times)
            && t.chunks == Some(r.state.chunkMap) && t.syncs == if r.state.syncs == [] then None else Some(r.state.syncs)
  {
    hide TrefRead;
  }

  /** One track from its tables. */
  method BuildTrack(tt: TrackTables, ghost r: TrackRow) returns (t: D.Track, ok: bool)
    requires Writable(r.state) && tt == TablesOf(r)
    ensures fresh(t) && (ok <==> TimesCounted(r.state))
    ensures ok ==> SameSamples(t, r.state) && SameHead(t, r) && t.Valid()
  {
    hide Entries, Times, Deltas, Sum, SyncsWithin, SameSamples, TimesCounted, TablesWritable, OwnChunks, D.Track.Valid, D.Track.Consistent;
    hide D.Track.Readable, D.Filled, TablesOf;
    FromTables(r);
    t := new D.Track(tt.id, tt.timescale, tt.duration, Or(tt.sizes), Or(tt.offsets), Or(tt.times), Or(tt.chunks), tt.syncs);
    ConsistentWhenCounted(t, r.state);
    var status := t.Build();
    ConsistentWhenCounted(t, r.state);
    ok := status.Ok?;
    if ok {
      BuiltSame(t, r.state);
      BuiltReady(t, r.state);
    }
  }

  /** Every track with samples has them. */
  ghost predicate AllSame(rows: seq<TrackRow>, tracks: seq<D.Track>)
    reads tracks
  {
    |tracks| == |AllTables(rows)| &&
    forall i :: 0 <= i < |rows| && rows[i].state.samples != [] ==>
      Place(rows, i) < |tracks| && SameSamples(tracks[Place(rows, i)], rows[i].state) && SameHead(tracks[Place(rows, i)], rows[i])
  }

  ghost predicate RowsWritable(rows: seq<TrackRow>)
  {
    forall i :: 0 <= i < |rows| && rows[i].state.samples != [] ==> Writable(rows[i].state)
  }

  predicate RowsCounted(rows: seq<TrackRow>)
  {
    forall i :: 0 <= i < |rows| && rows[i].state.samples != [] ==> TimesCounted(rows[i].state)
  }

  /** All tracks; the first whose tables do not agree ends it. */
  method BuildTracks(tables: seq<TrackTables>, ghost rows: seq<TrackRow>) returns (tracks: seq<D.Track>, ok: bool)
    requires tables == AllTables(rows) && RowsWritable(rows)
    ensures ok <==> RowsCounted(rows)
    ensures ok ==> forall k :: 0 <= k < |tracks| ==> fresh(tracks[k]) && tracks[k].Valid()
    ensures ok ==> forall k, m :: 0 <= k < m < |tracks| ==> tracks[k] != tracks[m]
    ensures ok ==> AllSame(rows, tracks)
  {
    hide AllTables, TablesOf, Writable, SameSamples, TimesCounted, Place, D.Track.Valid;
    tracks := [];
    ghost var from: seq<nat> := [];
    for k := 0 to |tables|
      invariant |tracks| == |from| == k
      invariant forall j :: 0 <= j < k ==> from[j] < |rows| && rows[from[j]].state.samples != [] && Place(rows, from[j]) == j
      invariant forall j :: 0 <= j < k ==> fresh(tracks[j]) && tracks[j].Valid()
      invariant forall i, j :: 0 <= i < j < k ==> tracks[i] != tracks[j]
      invariant forall j :: 0 <= j < k ==>
                  TimesCounted(rows[from[j]].state) && SameSamples(tracks[j], rows[from[j]].state) && SameHead(tracks[j], rows[from[j]])
    {
      ghost var i := TrackOfTables(rows, k);
      var t;
      t, ok := BuildTrack(tables[k], rows[i]);
      if !ok { return; }
      tracks, from := tracks + [t], from + [i];
    }
    ok := true;
    forall i | 0 <= i < |rows| && rows[i].state.samples != []
      ensures TimesCounted(rows[i].state) && Place(rows, i) < |tracks|
      ensures SameSamples(tracks[Place(rows, i)], rows[i].state) && SameHead(tracks[Place(rows, i)], rows[i])
    {
      TablesAtPlace(rows, i);
      PlaceOnce(rows, i, from[Place(rows, i)]);
    }
  }

  /** Two tracks with samples are at two places. */
  lemma {:induction false} PlaceOnce(rows: seq<TrackRow>, i: nat, j: nat)
    requires i < |rows| && j < |rows| && rows[i].state.samples != [] && rows[j].state.samples != [] && Place(rows, i) == Place(rows, j)
    ensures i == j
  {
    if i > 0 && j > 0 {
      PlaceOnce(rows[1..], i - 1, j - 1);
    }
  }

  // ---------- the chapters ----------

  function OffsetsOf(samples: seq<J.Sample>): (o: seq<u64>)
    ensures |o| == |samples| && forall i :: 0 <= i < |o| ==> o[i] == samples[i].offset
  {
    seq(|samples|, i requires 0 <= i < |samples| => samples[i].offset)
  }

  /** The tracks that have samples. */
  function Recorded(rows: seq<TrackRow>): seq<TrackRow>
  {
    if rows == [] then [] else (if rows[0].state.samples == [] then [] else [rows[0]]) + Recorded(rows[1..])
  }

  lemma {:induction false} RecordedAt(rows: seq<TrackRow>, i: nat)
    requires i < |rows| && rows[i].state.samples != []
    ensures Place(rows, i) < |Recorded(rows)| && Recorded(rows)[Place(rows, i)] == rows[i]
  {
    if i > 0 { RecordedAt(rows[1..], i - 1); }
  }

  /** If some track is taken for that of the chapters, the text of its samples is in the file as far as it is read. */
  predicate ChaptersThere(rows: seq<TrackRow>, content: seq<byte>)
  {
    var k := C.ChapterTrack(AllTables(rows));
    k.Some? ==>
      && k.value < |Recorded(rows)|
      && C.SamplesThere(content, OffsetsOf(Recorded(rows)[k.value].state.samples), SizesOf(Recorded(rows)[k.value].state.samples))
  }

  /** The samples of a track as its chapters are read from them. */
  ghost function SourceOf(t: D.Track): C.Source
    reads t`sampleOffset, t`sampleSize, t`sampleDecodingTime
  {
    C.Source(t.sampleOffset, t.sampleSize, t.sampleDecodingTime, t.timescale)
  }

  lemma SameSource(t: D.Track, s: R.TrackState)
    requires SameSamples(t, s)
    ensures C.Even(SourceOf(t)) && t.sampleOffset == OffsetsOf(s.samples) && t.sampleSize == SizesOf(s.samples)
  {
    hide Rebased, StepsFit, S.IsSync;
  }

  /** The chapters are those in the samples of their track, if there is one. */
  ghost predicate ChaptersBack(chapters: seq<C.Chapter>, rows: seq<TrackRow>, tracks: seq<D.Track>, content: seq<byte>)
    reads tracks
  {
    var k := C.ChapterTrack(AllTables(rows));
    if k.None? then chapters == []
    else k.value < |tracks| && C.Even(SourceOf(tracks[k.value])) && C.ChaptersFrom(content, SourceOf(tracks[k.value]), 0, []) == Some(chapters)
  }

  method ReadChapterTrack(f: MediaFile, tables: seq<TrackTables>, tracks: seq<D.Track>, ghost rows: seq<TrackRow>)
    returns (chapters: Option<seq<C.Chapter>>)
    requires tables == AllTables(rows) && AllSame(rows, tracks)
    modifies f`pos
    ensures chapters.Some? <==> ChaptersThere(rows, f.bytes)
    ensures chapters.Some? ==> ChaptersBack(chapters.value, rows, tracks, f.bytes)
  {
    hide AllTables, Place, SameSamples, C.ChapterTrack, C.SamplesThere, C.ChaptersFrom, Recorded, TablesOf;
    var k := C.LinkTracks(tables);
    if k.None? { return Some([]); }
    ghost var i := TrackOfTables(rows, k.value);
    RecordedAt(rows, i);
    var t := tracks[k.value];
    SameSource(t, rows[i].state);
    C.ChaptersReadable(f.bytes, SourceOf(t));
    chapters := C.ReadChapters(f, C.Source(t.sampleOffset, t.sampleSize, t.sampleDecodingTime, t.timescale));
  }

  // ---------- a closed recording ----------

  /** The demuxer's track is the muxer's, and the bytes of every sample are where it says. */
  ghost predicate ReadBackAs(t: D.Track, m: Track, content: seq<byte>)
    reads t`sampleDecodingTime, t`sampleOffset, t`sampleSize, t`sync, m
  {
    && SameSamples(t, m.State()) && |m.payloads| == |m.samples|
    && t.id == m.id % TWO32 && t.timescale == m.info.timescale && t.duration == m.duration
    && forall i :: 0 <= i < |m.samples| ==>
         t.sampleOffset[i] + t.sampleSize[i] <= |content|
         && content[t.sampleOffset[i]..t.sampleOffset[i] + t.sampleSize[i]] == m.payloads[i]
  }

  lemma ReadPayloads(t: D.Track, m: Track, content: seq<byte>, lo: nat, high: nat)
    requires SameSamples(t, m.State()) && SF.Stored(content, m.samples, m.payloads, lo, high)
    requires t.id == m.id % TWO32 && t.timescale == m.info.timescale && t.duration == m.duration
    ensures ReadBackAs(t, m, content)
  {
    hide Rebased, StepsFit, DtsOf, S.IsSync;
    forall i | 0 <= i < |m.samples|
      ensures t.sampleOffset[i] + t.sampleSize[i] <= |content|
      ensures content[t.sampleOffset[i]..t.sampleOffset[i] + t.sampleSize[i]] == m.payloads[i]
    {
      assert t.sampleSize[i] == m.State().samples[i].size && t.sampleOffset[i] == m.State().samples[i].offset;
      assert SF.StoredAt(content, m.samples[i], m.payloads[i], lo, high);
    }
  }

  lemma TrackIsWritable(t: Track)
    requires t.Valid() && t.times == Entries(DtsOf(t.samples)) && |t.samples| <= MAX_ENTRY_COUNT && |t.syncs| <= MAX_ENTRY_COUNT
    requires t.samples != []
    ensures Writable(t.State())
  {
    hide R.GoodMetas, R.GoodInfo, R.InRange, Entries;
    EntriesShort(DtsOf(t.samples));
  }

  lemma ClosedWritable(mux: Mux, ts: seq<Track>, states: seq<R.TrackState>)
    requires mux.TracksOk() && WithinLimits(mux) && RefreshedFrom(mux, ts, states)
    ensures AllWritable(Rows(mux)) && Timescaled(Rows(mux)) && (AllDescribed(mux) ==> AllDescribable(Rows(mux)))
    ensures RowsWritable(Rows(mux))
  {
    hide Track.Valid, Mux.TracksOk, TablesWritable, Entries, TrackOrder.Sorted, Writable, AllWritable, Lasting, AllDescribed, AllDescribable, Timescaled;
    AllTracksWritable(mux, ts, states);
    DescribedRows(mux);
    mux.SameTracks();
    forall i | 0 <= i < |mux.tracks| && mux.tracks[i].samples != [] ensures Writable(Rows(mux)[i].state) {
      mux.TrackSyncable(i);
      var t := mux.tracks[i];
      assert t == mux.byHandle[t.handle - 1];
      assert t.State().times == Entries(DtsOf(t.samples));
      TrackIsWritable(t);
    }
  }

  /** The demuxer has the description of the track. */
  predicate ToldBack(d: Desc, t: Track)
    reads t`config
  {
    d == Told(t.info.kind, t.config)
  }

  /** What the demuxer has of each track with samples. */
  ghost predicate AllReadBack(mux: Mux, tracks: seq<D.Track>, content: seq<byte>)
    reads mux`tracks, mux`byHandle, mux.tracks, mux.byHandle, tracks
  {
    forall i :: 0 <= i < |mux.tracks| && mux.tracks[i].samples != [] ==>
      Place(Rows(mux), i) < |tracks| && ReadBackAs(tracks[Place(Rows(mux), i)], mux.tracks[i], content)
  }

  ghost predicate AllToldBack(mux: Mux, descs: seq<Desc>)
    reads mux`tracks, mux`byHandle, mux.tracks, mux.byHandle
  {
    forall i :: 0 <= i < |mux.tracks| && mux.tracks[i].samples != [] ==>
      Place(Rows(mux), i) < |descs| && ToldBack(descs[Place(Rows(mux), i)], mux.tracks[i])
  }

  /** The walk agrees with every description exactly when all of them can be read back whole. */
  lemma ToldWhenCarried(mux: Mux, seen: Seen)
    requires Sound(seen) && Agrees(seen, MovieFound(Rows(mux), mux.timescale, mux.metas, mux.cover))
    ensures AllToldBack(mux, seen.descs) <==> AllCarried(mux)
  {
    hide AllTables, AllTold, Place, Told, Carried, ShortSets, MovieTicks;
    var rows := Rows(mux);
    forall i | 0 <= i < |mux.tracks| && mux.tracks[i].samples != []
      ensures Place(rows, i) < |seen.descs|
      ensures ToldBack(seen.descs[Place(rows, i)], mux.tracks[i]) <==> Carried(mux.tracks[i].info.kind, mux.tracks[i].config)
    {
      TablesAtPlace(rows, i);
      if !Carried(mux.tracks[i].info.kind, mux.tracks[i].config) {
        NotCarried(mux.tracks[i].info.kind, mux.tracks[i].config, seen.descs[Place(rows, i)]);
      }
    }
  }

  /** All descriptions can be told when all parameter sets have lengths of 16 bits. */
  lemma {:induction false} SureWhenCarried(rows: seq<TrackRow>)
    requires forall i :: 0 <= i < |rows| && rows[i].state.samples != [] ==> Carried(rows[i].state.info.kind, rows[i].state.config)
    ensures forall k :: 0 <= k < |AllTold(rows)| ==> AllTold(rows)[k].Some?
  {
    hide Carried, Told;
    if rows != [] {
      assert forall i :: 0 <= i < |rows[1..]| ==> rows[1..][i] == rows[i + 1];
      SureWhenCarried(rows[1..]);
    }
  }

  ghost predicate AllCarried(mux: Mux)
    reads mux`tracks, mux.tracks
  {
    forall i :: 0 <= i < |mux.tracks| && mux.tracks[i].samples != [] ==> Carried(mux.tracks[i].info.kind, mux.tracks[i].config)
  }

  ghost predicate AllCounted(mux: Mux)
    reads mux`tracks, mux.tracks
  {
    forall i :: 0 <= i < |mux.tracks| && mux.tracks[i].samples != [] ==> TimesCounted(mux.tracks[i].State())
  }

  // ---------- the metadata ----------

  /** Every value of the file and of its tracks with samples can be read; a location may be empty. */
  ghost predicate ValuesRead(mux: Mux)
    reads mux`metas, mux`tracks, mux.tracks
  {
    && T.Valued(mux.metas)
    && forall i :: 0 <= i < |mux.tracks| && mux.tracks[i].samples != [] ==> T.Valued(mux.tracks[i].metas)
  }

  /** No key is taken for a box of another kind. */
  predicate PlainKeys(mux: Mux)
    reads mux`metas, mux`tracks, mux.tracks
  {
    && T.PlainMetas(mux.metas)
    && forall i :: 0 <= i < |mux.tracks| && mux.tracks[i].samples != [] ==> T.PlainMetas(mux.tracks[i].metas)
  }

  /** What the demuxer has besides the tracks: timescale and duration of the movie, the metadata of the file and of every track, the cover, and the chapters. */
  datatype Extras = Extras(timescale: u32, duration: u64, metas: seq<F.Entry>, cover: Option<(u32, seq<byte>)>, texts: seq<X.Texts>,
                           chapters: seq<C.Chapter>)

  const NO_EXTRAS := Extras(0, 0, [], None, [], [])

  /** The movie lasts as long as its longest track, if the durations of the tracks have 32 bits. */
  ghost predicate LongestBack(mux: Mux, duration: u64)
    reads mux`tracks, mux.tracks
  {
    (forall t <- mux.tracks :: t.durationMoov < TWO32) ==>
      && (forall t <- mux.tracks :: t.durationMoov <= duration)
      && (duration == 0 || exists t <- mux.tracks :: t.durationMoov == duration)
  }

  lemma LongestOfRows(mux: Mux, duration: u64)
    requires DurationsFit(Rows(mux)) ==> LastsAsLongest(Rows(mux), duration)
    ensures LongestBack(mux, duration)
  {
    var rows := Rows(mux);
    assert forall i :: 0 <= i < |rows| ==> rows[i].durationMoov == mux.tracks[i].durationMoov;
    if forall t <- mux.tracks :: t.durationMoov < TWO32 {
      assert DurationsFit(rows);
      forall t | t in mux.tracks ensures t.durationMoov <= duration {
        var i :| 0 <= i < |mux.tracks| && mux.tracks[i] == t;
        assert rows[i].durationMoov <= duration;
      }
      if duration != 0 {
        var i :| 0 <= i < |rows| && rows[i].durationMoov == duration;
        assert mux.tracks[i] in mux.tracks;
      }
    }
  }

  /** All of it is what the muxer had. */
  ghost predicate ExtrasBack(mux: Mux, tracks: seq<D.Track>, e: Extras)
    reads mux, mux.tracks, mux.byHandle, mux.file`content, tracks
  {
    var rows := Rows(mux);
    var notes := MovieNotes(rows, mux.metas, mux.cover);
    NotesFound(rows, mux.metas, mux.cover);
    && e.timescale == mux.timescale && LongestBack(mux, e.duration)
    && e.metas == F.FinalMetas(notes) && e.cover == F.FinalCover(notes)
    && ChaptersBack(e.chapters, rows, tracks, mux.file.content)
    && forall i :: 0 <= i < |mux.tracks| && mux.tracks[i].samples != [] ==>
         Place(rows, i) < |e.texts| && e.texts[Place(rows, i)] == T.TextsOf(mux.tracks[i].metas)
  }

  lemma MetasOfRows(mux: Mux)
    ensures ValuesRead(mux) <==> T.Valued(mux.metas) && AllValued(Rows(mux))
    ensures PlainKeys(mux) <==> T.PlainMetas(mux.metas) && AllPlain(Rows(mux))
  {
    hide T.Valued, T.PlainMetas;
    RowFields(mux);
  }

  /** The metadata of the tracks, as it was found with their tables. */
  method TextsFound(tables: seq<TrackTables>, ghost mux: Mux) returns (texts: seq<X.Texts>)
    requires tables == AllTables(Rows(mux))
    ensures forall i :: 0 <= i < |mux.tracks| && mux.tracks[i].samples != [] ==>
              Place(Rows(mux), i) < |texts| && texts[Place(Rows(mux), i)] == T.TextsOf(mux.tracks[i].metas)
  {
    hide AllTables, Place, Rows, T.TextsOf;
    texts := seq(|tables|, k requires 0 <= k < |tables| => tables[k].texts);
    RowFields(mux);
    forall i | 0 <= i < |mux.tracks| && mux.tracks[i].samples != []
      ensures Place(Rows(mux), i) < |texts| && texts[Place(Rows(mux), i)] == T.TextsOf(mux.tracks[i].metas)
    {
      TablesAtPlace(Rows(mux), i);
    }
  }

  lemma CountedRows(mux: Mux)
    ensures AllCounted(mux) <==> RowsCounted(Rows(mux))
  {
    hide TimesCounted, Track.State;
    RowFields(mux);
  }

  /** What the walk found of the metadata is well formed. */
  lemma NotesFound(rows: seq<TrackRow>, ms: seq<M.Meta>, c: T.CoverArt)
    ensures var t := MovieNotes(rows, ms, c).texts; t == T.TextsOf(ms) && |t.keys| == |t.values|
  {
    hide TrackNotes, T.Noted, T.Kept;
    T.NotedTexts(ms, c, TrackNotes(rows, X.NO_NOTES).(texts := T.TextsOf(ms)));
  }

  /**
     A recording that was closed, with the gap after the movie box filled, is read back
     by the demuxer. It is refused when the movie has no timescale, when some value of
     its metadata is empty or was too long to be written, when the times of some track
     do not account for all its samples, or when the text of a chapter is not in the
     file; with parameter sets of at most 65535 bytes, it is refused only then. If it is
     not refused, every track is there, in the order of the tracks, with the number, the
     timescale, the duration, the sizes, the offsets, the times, the sync samples and the
     bytes that were recorded, and so are the metadata, the cover and the chapters. All
     of the descriptions are there exactly when the sets are no longer than that.
  */
  method ReadBack(mux: Mux, ghost fixed: Fixed, ghost data: seq<byte>, ghost moov: Box, ghost ts: seq<Track>, ghost states: seq<R.TrackState>)
    returns (tracks: seq<D.Track>, descs: seq<Desc>, extras: Extras, ok: bool)
    requires mux.Valid() && WithinLimits(mux) && RefreshedFrom(mux, ts, states) && PlainKeys(mux)
    requires Finished(mux, fixed, data, moov, true)
    ensures ok && AllToldBack(mux, descs) <==>
              && mux.timescale > 0 && AllCarried(mux) && AllCounted(mux) && ValuesRead(mux)
              && ChaptersThere(Rows(mux), mux.file.content)
    ensures ok ==> mux.timescale > 0 && AllCounted(mux) && ValuesRead(mux) && ChaptersThere(Rows(mux), mux.file.content)
    ensures ok ==> forall k :: 0 <= k < |tracks| ==> fresh(tracks[k]) && tracks[k].Valid()
    ensures ok ==> forall k, m :: 0 <= k < m < |tracks| ==> tracks[k] != tracks[m]
    ensures ok ==> |tracks| == |AllTables(Rows(mux))| && AllReadBack(mux, tracks, mux.file.content)
    ensures ok ==> ExtrasBack(mux, tracks, extras)
  {
    hide Mux.TracksOk, Mux.MetasOk, Mux.DataSafe, Mux.JournalOk, Mux.LogOk, Tiled, Moov, AllWritable, Writable;
    hide RefreshedFrom, WithinLimits, BoxBytes, Bounded, AllTables, AllTold, SameSamples, TimesCounted, Place, ReadBackAs, Track.State, RefsResolve, D.Track.Valid;
    hide AllDescribable, AllDescribed, Timescaled, Carried, Told, MovieTicks, Sound, ShortSets, Follows, Agrees, MovieFound, MovieTells;
    hide AllCarried, AllToldBack, AllReadBack, ValuesRead, PlainKeys, AllPlain, AllValued, ChaptersThere, ExtrasBack, MovieNotes, T.Valued, T.PlainMetas, AllCounted, RowsCounted, RowsWritable, AllSame;
    hide LongestBack, DurationsFit, LastsAsLongest;
    FileIsValid(mux, mux.file.pos);
    ClosedWritable(mux, ts, states);
    ghost var rows := Rows(mux);
    MetasOfRows(mux);
    CountedRows(mux);
    tracks, descs, extras := [], [], NO_EXTRAS;
    var f := new MediaFile(mux.file.content);
    var seen, walked := ReadTables(f, mux.Base(), data, moov, rows, mux.timescale, mux.metas, mux.cover, fixed);
    WalkOutcome(mux, seen, walked);
    if !walked { return tracks, descs, extras, false; }
    ToldWhenCarried(mux, seen);
    descs := seen.descs;
    tracks, ok := BuildTracks(seen.tracks, rows);
    if !ok { return; }
    EachReadBack(mux, tracks);
    assert |tracks| == |AllTables(rows)| by { AllThere(rows, tracks); }
    LongestOfRows(mux, seen.duration);
    extras, ok := ReadExtras(f, seen, tracks, mux);
  }

  lemma AllThere(rows: seq<TrackRow>, tracks: seq<D.Track>)
    requires AllSame(rows, tracks)
    ensures |tracks| == |AllTables(rows)|
  {
    hide AllTables, Place, SameSamples, SameHead;
  }

  /** The chapters, and then the metadata. */
  method ReadExtras(f: MediaFile, seen: Seen, tracks: seq<D.Track>, ghost mux: Mux) returns (e: Extras, ok: bool)
    requires f.bytes == mux.file.content && seen.tracks == AllTables(Rows(mux)) && AllSame(Rows(mux), tracks)
    requires seen.notes == MovieNotes(Rows(mux), mux.metas, mux.cover)
    requires seen.timescale == mux.timescale && LongestBack(mux, seen.duration)
    modifies f`pos
    ensures ok <==> ChaptersThere(Rows(mux), mux.file.content)
    ensures ok ==> ExtrasBack(mux, tracks, e)
  {
    hide AllTables, Place, Rows, AllSame, ChaptersThere, ChaptersBack, MovieNotes, F.FinalMetas, F.FinalCover, T.TextsOf, LongestBack;
    var chapters := ReadChapterTrack(f, seen.tracks, tracks, Rows(mux));
    if chapters.None? { return NO_EXTRAS, false; }
    NotesFound(Rows(mux), mux.metas, mux.cover);
    var metas, cover := F.BuildMetadata(seen.notes);
    var texts := TextsFound(seen.tracks, mux);
    return Extras(seen.timescale, seen.duration, metas, cover, texts, chapters.value), true;
  }

  lemma WalkOutcome(mux: Mux, seen: Seen, ok: bool)
    requires Follows(ok, seen, MovieTells(Rows(mux), mux.timescale, mux.metas, mux.cover))
    ensures ok ==>
              && mux.timescale > 0 && ValuesRead(mux) && Agrees(seen, MovieFound(Rows(mux), mux.timescale, mux.metas, mux.cover))
              && seen.tracks == AllTables(Rows(mux)) && seen.notes == MovieNotes(Rows(mux), mux.metas, mux.cover)
    ensures mux.timescale > 0 && AllCarried(mux) && ValuesRead(mux) ==> ok
  {
    hide AllTables, AllTold, Rows, Carried, ValuesRead, AllValued, T.Valued, MovieNotes;
    RowFields(mux);
    MetasOfRows(mux);
    if AllCarried(mux) { SureWhenCarried(Rows(mux)); }
  }

  lemma RowFields(mux: Mux)
    ensures var rows := Rows(mux);
            forall i :: 0 <= i < |rows| ==>
              && rows[i].state == mux.tracks[i].State() && rows[i].state.samples == mux.tracks[i].samples
              && rows[i].state.config == mux.tracks[i].config && rows[i].state.info == mux.tracks[i].info
              && rows[i].id == mux.tracks[i].id % TWO32 && rows[i].duration == mux.tracks[i].duration
  {
  }

  lemma EachReadBack(mux: Mux, tracks: seq<D.Track>)
    requires mux.TracksOk() && mux.DataSafe(mux.file.pos)
    requires AllSame(Rows(mux), tracks)
    ensures AllReadBack(mux, tracks, mux.file.content)
  {
    hide Mux.TracksOk, Mux.DataSafe, Place, SameSamples, Rows, Track.State, ReadBackAs;
    RowFields(mux);
    forall i | 0 <= i < |mux.tracks| && mux.tracks[i].samples != []
      ensures Place(Rows(mux), i) < |tracks| && ReadBackAs(tracks[Place(Rows(mux), i)], mux.tracks[i], mux.file.content)
    {
      SampleBytes(mux, i, mux.file.pos);
      ReadPayloads(tracks[Place(Rows(mux), i)], mux.tracks[i], mux.file.content, mux.Base() + 16, mux.file.pos);
    }
  }

  lemma SampleBytes(mux: Mux, i: nat, high: nat)
    requires mux.TracksOk() && mux.DataSafe(high) && i < |mux.tracks|
    ensures SF.Stored(mux.file.content, mux.tracks[i].samples, mux.tracks[i].payloads, mux.Base() + 16, high)
  {
    hide Mux.TracksOk, SF.Stored, SF.Growing, SF.Apart;
    mux.TrackSyncable(i);
  }

  // ---------- the chapters of a recording ----------

  /** The samples of a track, and the bytes recorded for them. */
  lemma PayloadsInFile(content: seq<byte>, samples: seq<J.Sample>, payloads: seq<seq<byte>>, lo: nat, high: nat, times: seq<u64>, timescale: u32)
    requires SF.Stored(content, samples, payloads, lo, high) && |times| == |samples| && |content| < TWO63
    ensures C.InFile(content, C.Source(OffsetsOf(samples), SizesOf(samples), times, timescale), payloads)
  {
    forall i | 0 <= i < |samples|
      ensures |payloads[i]| == samples[i].size && samples[i].offset + samples[i].size <= |content|
      ensures content[samples[i].offset..samples[i].offset + samples[i].size] == payloads[i]
    {
      assert SF.StoredAt(content, samples[i], payloads[i], lo, high);
    }
  }

  /** Chapters never make the demuxer refuse a recording if each of their samples has at least two bytes, the length of its text. */
  lemma ChaptersFit(mux: Mux)
    requires mux.Valid()
    requires forall i :: 0 <= i < |mux.tracks| && mux.tracks[i].info.kind.Chapters? ==> C.LongEnough(mux.tracks[i].payloads)
    ensures ChaptersThere(Rows(mux), mux.file.content)
  {
    hide Mux.TracksOk, Mux.MetasOk, Mux.DataSafe, Mux.JournalOk, Mux.LogOk, SF.Stored, C.LongEnough, C.InFile, C.SamplesThere, C.ChaptersFrom, C.ChapterTrack;
    hide AllTables, Recorded, Place, Rows, TrefRead;
    var rows := Rows(mux);
    var k := C.ChapterTrack(AllTables(rows));
    if k.Some? {
      var i := TrackOfTables(rows, k.value);
      RecordedAt(rows, i);
      RowFields(mux);
      var t := mux.tracks[i];
      var source := C.Source(OffsetsOf(t.samples), SizesOf(t.samples), seq(|t.samples|, _ => 0), 0);
      FileIsValid(mux, mux.file.pos);
      SampleBytes(mux, i, mux.file.pos);
      PayloadsInFile(mux.file.content, t.samples, t.payloads, mux.Base() + 16, mux.file.pos, source.times, 0);
      C.ChaptersRecorded(mux.file.content, source, t.payloads);
    }
  }

  /** The chapters read back are then those that were recorded, each with its text. */
  lemma ChaptersComeBack(mux: Mux, tracks: seq<D.Track>, e: Extras, i: nat)
    requires AllReadBack(mux, tracks, mux.file.content) && ExtrasBack(mux, tracks, e) && |mux.file.content| < TWO63
    requires i < |mux.tracks| && mux.tracks[i].samples != [] && C.ChapterTrack(AllTables(Rows(mux))) == Some(Place(Rows(mux), i))
    requires C.LongEnough(mux.tracks[i].payloads)
    ensures var t := tracks[Place(Rows(mux), i)];
            && |t.sampleDecodingTime| == |mux.tracks[i].payloads|
            && e.chapters == C.ChaptersAmong(mux.tracks[i].payloads, t.sampleDecodingTime, t.timescale, 0, [])
  {
    hide C.ChapterTrack, C.ChaptersFrom, C.ChaptersAmong, C.LongEnough, AllTables, Place, Rows, MovieNotes, F.FinalMetas, F.FinalCover, T.TextsOf, Rebased, StepsFit, S.IsSync;
    var t := tracks[Place(Rows(mux), i)];
    assert ReadBackAs(t, mux.tracks[i], mux.file.content);
    assert C.InFile(mux.file.content, SourceOf(t), mux.tracks[i].payloads);
    C.ChaptersRecorded(mux.file.content, SourceOf(t), mux.tracks[i].payloads);
  }

  // ---------- values that make the demuxer refuse the file ----------

  /** A key of another length than those of the table has no alternate. */
  lemma NoAlternate(key: M.Key)
    requires |key| != 4 && |key| < 20
    ensures M.Alternate(key).None?
  {
    hide M.Ascii, BE32;
    M.AlternatesDistinct();
    M.AlternateFromInvolutive(M.Alternates(), key, 0);
  }

  /** A key that is accepted with the empty value it was given: whatever else the movie has, the demuxer refuses the file. */
  lemma EmptyValueRefused(rows: seq<TrackRow>, timescale: u32, c: T.CoverArt)
    ensures var key := M.Ascii("com.x");
            && M.ValidKey(key) && M.Add([], key, [], true) == [M.Meta(key, [])]
            && T.PlainMetas([M.Meta(key, [])]) && MovieTells(rows, timescale, [M.Meta(key, [])], c) == None
  {
    hide AllValued, MovieFound;
    var key := M.Ascii("com.x");
    assert key[..4] == M.Ascii("com.");
    NoAlternate(key);
    var ms := [M.Meta(key, [])];
    assert !T.Valued(ms) by { assert R.Storage(ms[0].key) == T.IN_META && ms[0].value == []; }
  }

  // ---------- seeking in a recording read back ----------

  /** A track with a single sample has no duration. */
  lemma OneSampleLastsNothing(t: Track, timescale: u32)
    requires Lasting(t, timescale) && |t.samples| <= 1
    ensures t.duration == 0
  {
    assert Diffs(DtsOf(t.samples)) == [];
  }

  /** With more, it lasts from the first time to the last. */
  lemma LastsToTheEnd(t: Track, timescale: u32)
    requires Lasting(t, timescale) && |t.samples| > 0 && StepsFit(DtsOf(t.samples))
    ensures t.duration == t.samples[|t.samples| - 1].dts - t.samples[0].dts
  {
    hide Diffs, Sum, MovieDuration;
    TrackDuration(DtsOf(t.samples));
  }

  /** The times of the samples are distinct and in order, with steps that can be written, and survive microseconds. */
  ghost predicate Steady(t: Track)
    reads t
  {
    && StepsFit(DtsOf(t.samples)) && S.Increasing(DtsOf(t.samples)) && 1 <= t.info.timescale <= 1000000
    && forall j :: 0 <= j < |t.samples| ==>
         t.samples[j].dts >= t.samples[0].dts && UsecFits(t.samples[j].dts - t.samples[0].dts, t.info.timescale)
  }

  /** Sample `n` is read next, and where it is said to be are the bytes recorded for it. */
  ghost predicate NextIs(t: D.Track, m: Track, n: nat, content: seq<byte>)
    reads t, m
  {
    && t.nextSample == n && t.pendingSeekTime == 0
    && n < |t.sampleSize| == |t.sampleOffset| && n < |m.payloads|
    && t.sampleOffset[n] + t.sampleSize[n] <= |content|
    && content[t.sampleOffset[n]..t.sampleOffset[n] + t.sampleSize[n]] == m.payloads[n]
  }

  /** Every track that has samples has a duration. */
  ghost predicate AllLasting(mux: Mux)
    reads mux`tracks, mux.tracks
  {
    forall i :: 0 <= i < |mux.tracks| && mux.tracks[i].samples != [] ==> mux.tracks[i].duration > 0
  }

  lemma SameDurations(mux: Mux, tracks: seq<D.Track>, content: seq<byte>)
    requires AllReadBack(mux, tracks, content) && |tracks| == |AllTables(Rows(mux))|
    ensures AllLasting(mux) <==> forall k :: 0 <= k < |tracks| ==> tracks[k].duration > 0
  {
    hide AllTables, Place, SameSamples, Rows;
    RowFields(mux);
    if AllLasting(mux) {
      forall k | 0 <= k < |tracks| ensures tracks[k].duration > 0 {
        var i := TrackOfTables(Rows(mux), k);
        assert ReadBackAs(tracks[Place(Rows(mux), i)], mux.tracks[i], content);
      }
    } else {
      var i :| 0 <= i < |mux.tracks| && mux.tracks[i].samples != [] && mux.tracks[i].duration == 0;
      assert ReadBackAs(tracks[Place(Rows(mux), i)], mux.tracks[i], content);
    }
  }

  lemma SteppableTrack(d: Demux.Demuxer, k: nat, m: Track, content: seq<byte>)
    requires k < |d.tracks| && ReadBackAs(d.tracks[k], m, content) && Steady(m)
    ensures d.Steppable(k) && |d.tracks[k].sampleDecodingTime| == |m.samples|
  {
    var t := d.tracks[k];
    assert Rebased(DtsOf(m.samples), t.sampleDecodingTime);
    assert forall j :: 0 <= j < |m.samples| ==> t.sampleDecodingTime[j] == DtsOf(m.samples)[j] - DtsOf(m.samples)[0];
  }

  lemma SoughtIsNext(d: Demux.Demuxer, k: nat, m: Track, n: nat, content: seq<byte>, usec: u64)
    requires k < |d.tracks| && ReadBackAs(d.tracks[k], m, content) && Steady(m) && n < |m.samples|
    requires n < |d.tracks[k].sampleDecodingTime|
    requires usec == SampleTimeToUsec(d.tracks[k].sampleDecodingTime[n], d.tracks[k].timescale) && d.SoughtAt(k, usec, S.Previous)
    ensures NextIs(d.tracks[k], m, n, content)
  {
    hide Rebased, StepsFit, UsecFits, SampleTimeToUsec, Steady, S.IsSync;
    SteppableTrack(d, k, m, content);
    d.SeekHitsSample(k, n, S.Previous);
    d.LandedOn(k, n, usec);
  }

  /**
     Seeking in a recording read back to the time of sample `n` of a track. It divides by
     zero exactly when some track with samples has no duration, a single sample for one;
     otherwise the sample to be read next is the one recorded as number `n`.
  */
  method SeekReadBack(d: Demux.Demuxer, ghost mux: Mux, ghost i: nat, k: nat, n: nat, ghost content: seq<byte>) returns (result: Demux.Outcome)
    requires d.Valid() && AllReadBack(mux, d.tracks, content) && |d.tracks| == |AllTables(Rows(mux))|
    requires i < |mux.tracks| && n < |mux.tracks[i].samples| && k == Place(Rows(mux), i)
    modifies d.tracks`nextSample, d.tracks`pendingSeekTime, d.tracks`target
    ensures d.Valid() && !result.NotFound? && (result.DivisionByZero? <==> !AllLasting(mux))
    ensures result.Done? && Steady(mux.tracks[i]) ==> k < |d.tracks| && NextIs(d.tracks[k], mux.tracks[i], n, content)
  {
    hide AllTables, Place, Rows, Demux.Demuxer.Valid, SampleTimeToUsec, Steady, NextIs, ReadBackAs, Demux.Demuxer.SoughtAt;
    ghost var m := mux.tracks[i];
    SameDurations(mux, d.tracks, content);
    var t := d.tracks[k];
    assert ReadBackAs(t, m, content);
    TimeThere(t, m, content, n);
    var usec := SampleTimeToUsec(t.sampleDecodingTime[n], t.timescale);
    result := d.Seek(usec, S.Previous);
    if result.Done? && Steady(m) { SoughtIsNext(d, k, m, n, content, usec); }
  }

  lemma TimeThere(t: D.Track, m: Track, content: seq<byte>, n: nat)
    requires ReadBackAs(t, m, content) && n < |m.samples|
    ensures n < |t.sampleDecodingTime| && |t.sampleSize| == |t.sampleOffset| == |m.samples|
  {
    hide Rebased, StepsFit;
  }
}
