/**
 Recovering a recording from its journal and whatever is left of its media file:
 replay, cut back to the samples that are still there, and close.
 */
module Recovery {
  import opened Bytes
  import opened Wrappers
  import opened Metadata
  import opened JournalFormat
  import opened JournalReplay
  import opened JournalSteps
  import opened JournalFile
  import opened JournalReader
  import opened TimeTable
  import opened TrackOrder
  import opened MuxTrack
  import opened MuxFile
  import opened DataSafety
  import opened Mux
  import opened MuxSync
  import opened Recording
  import B = BoxTree
  import M = Movie

  // ---------- what survives a cut ----------

  /** From sample `i` on, how many samples in a row end within the file. */
  function KeptFrom(samples: seq<Sample>, chunks: seq<u64>, eof: nat, i: nat): (n: nat)
    requires i <= |samples| && i <= |chunks|
    ensures i <= n <= |samples| && n <= |chunks|
    ensures forall j :: i <= j < n ==> chunks[j] + samples[j].size <= eof
    ensures n < |samples| && n < |chunks| ==> chunks[n] + samples[n].size > eof
    decreases |samples| - i
  {
    if i == |samples| || i == |chunks| || chunks[i] + samples[i].size > eof then i else KeptFrom(samples, chunks, eof, i + 1)
  }

  function KeptCount(samples: seq<Sample>, chunks: seq<u64>, eof: nat): (n: nat)
    ensures n <= |samples| && n <= |chunks|
  {
    KeptFrom(samples, chunks, eof, 0)
  }

  /** Since offsets only grow, the samples kept are all the samples that are still in the file. */
  lemma NothingLost(samples: seq<Sample>, chunks: seq<u64>, eof: nat, i: nat)
    requires OwnChunks(samples, chunks) && Growing(samples) && i < |samples|
    ensures i < KeptCount(samples, chunks, eof) <==> samples[i].offset + samples[i].size <= eof
  {
    var n := KeptCount(samples, chunks, eof);
    if n < i { assert samples[n].offset + samples[n].size <= samples[i].offset; }
  }

  /** Where the furthest of the first `n` samples ends. */
  function FurthestEnd(samples: seq<Sample>, chunks: seq<u64>, n: nat, max: nat): (m: nat)
    requires n <= |samples| && n <= |chunks|
    ensures m >= max && (forall j :: 0 <= j < n ==> chunks[j] + samples[j].size <= m)
    ensures m == max || exists j :: 0 <= j < n && m == chunks[j] + samples[j].size
  {
    if n == 0 then max else Max(FurthestEnd(samples, chunks, n - 1, max), chunks[n - 1] + samples[n - 1].size)
  }

  /** The cut of one track: samples and chunks are counted while they end within the file, and sync entries stay. */
  method CutTrack(t: Track, eof: nat, max: nat) returns (max': nat)
    modifies t`samples, t`chunks
    ensures var n := KeptCount(old(t.samples), old(t.chunks), eof);
            t.samples == old(t.samples)[..n] && t.chunks == old(t.chunks)[..n] && max' == FurthestEnd(old(t.samples), old(t.chunks), n, max)
  {
    var count := Min(|t.chunks|, |t.samples|);
    var resized: nat := 0;
    max' := max;
    while resized < count
      invariant resized <= count && KeptCount(t.samples, t.chunks, eof) == KeptFrom(t.samples, t.chunks, eof, resized)
      invariant max' == FurthestEnd(t.samples, t.chunks, resized, max)
      invariant t.samples == old(t.samples) && t.chunks == old(t.chunks)
    {
      var end := t.chunks[resized] + t.samples[resized].size;
      if end > eof { break; }
      max' := Max(max', end);
      resized := resized + 1;
    }
    t.samples, t.chunks := t.samples[..resized], t.chunks[..resized];
  }

  /** The recovered track after the cut. */
  ghost predicate IsCut(t: Track, c: TrackLog, eof: nat)
    reads t
  {
    t.View() == c.(samples := c.samples[..KeptCount(c.samples, c.chunks, eof)], chunks := c.chunks[..KeptCount(c.samples, c.chunks, eof)])
  }

  /** Sample `i` of track `h` is kept. */
  predicate Survives(log: Log, eof: nat, h: nat, i: nat)
  {
    h < |log.tracks| && i < KeptCount(log.tracks[h].samples, log.tracks[h].chunks, eof)
  }

  /** Where it ends. */
  function EndOf(log: Log, h: nat, i: nat): nat
    requires h < |log.tracks| && i < |log.tracks[h].samples| && i < |log.tracks[h].chunks|
  {
    log.tracks[h].chunks[i] + log.tracks[h].samples[i].size
  }

  /** `max` is where the furthest kept sample of the first `k` tracks ends, or 0. */
  ghost predicate FurthestOf(log: Log, k: nat, eof: nat, max: nat)
  {
    && (forall h, i :: 0 <= h < k && Survives(log, eof, h, i) ==> EndOf(log, h, i) <= max)
    && (max == 0 || exists h: nat, i: nat :: h < k && Survives(log, eof, h, i) && EndOf(log, h, i) == max)
  }

  lemma FurthestNext(log: Log, k: nat, eof: nat, max: nat, max': nat)
    requires k < |log.tracks| && FurthestOf(log, k, eof, max)
    requires var c := log.tracks[k]; max' == FurthestEnd(c.samples, c.chunks, KeptCount(c.samples, c.chunks, eof), max)
    ensures FurthestOf(log, k + 1, eof, max')
  {
    var c := log.tracks[k];
    var n := KeptCount(c.samples, c.chunks, eof);
    if max' > max {
      var j :| 0 <= j < n && max' == c.chunks[j] + c.samples[j].size;
      assert Survives(log, eof, k, j) && EndOf(log, k, j) == max';
    } else if max > 0 {
      var h: nat, i: nat :| h < k && Survives(log, eof, h, i) && EndOf(log, h, i) == max;
      assert h < k + 1;
    }
  }

  /** The cut of every track. */
  method CutTracks(m: Mux, eof: nat) returns (max: nat)
    requires InOrder(m)
    modifies m.tracks`samples, m.tracks`chunks
    ensures InOrder(m)
    ensures forall h :: 0 <= h < |m.tracks| ==> IsCut(m.tracks[h], old(LogOf(m)).tracks[h], eof)
    ensures FurthestOf(old(LogOf(m)), |m.tracks|, eof, max)
  {
    hide FurthestOf, KeptCount, Permuted, RefBytes, Mux.HandlesOk, FurthestEnd;
    ghost var log := LogOf(m);
    NoneYet(log, eof);
    max := 0;
    for k := 0 to |m.tracks|
      invariant InOrder(m)
      invariant forall h :: 0 <= h < k ==> IsCut(m.tracks[h], log.tracks[h], eof)
      invariant forall h :: k <= h < |m.tracks| ==> m.tracks[h].View() == log.tracks[h]
      invariant FurthestOf(log, k, eof, max)
    {
      TracksDiffer(m, k);
      ghost var before := max;
      max := CutTrack(m.tracks[k], eof, max);
      FurthestNext(log, k, eof, before, max);
    }
  }

  lemma TracksDiffer(m: Mux, k: nat)
    requires InOrder(m) && k < |m.tracks|
    ensures forall i :: 0 <= i < |m.tracks| && i != k ==> m.tracks[i] != m.tracks[k]
  {
  }

  lemma NoneYet(log: Log, eof: nat)
    ensures FurthestOf(log, 0, eof, 0)
  {
  }

  // ---------- what can be salvaged ----------

  /** What the log and the media file have of a track: its tables as they were recorded, and the bytes still there. */
  ghost predicate TrackSalvageable(t: TrackLog, p: seq<seq<byte>>, c: seq<byte>, base: nat)
  {
    && OwnChunks(t.samples, t.chunks) && Growing(t.samples) && SyncsWithin(t.syncs, U32_MAX) && t.chunkMap == ONE_PER_CHUNK
    && (t.syncs != [] ==> t.info.kind.Video?)
    && |p| == |t.samples| <= B.MAX_ENTRY_COUNT && |t.syncs| <= B.MAX_ENTRY_COUNT
    && forall i {:trigger t.samples[i]} :: 0 <= i < |t.samples| ==> SampleSalvageable(t.samples[i], p[i], c, base)
  }

  ghost predicate SampleSalvageable(x: Sample, p: seq<byte>, c: seq<byte>, base: nat)
  {
    && base + 16 <= x.offset && |p| == x.size
    && (x.offset + x.size <= |c| ==> c[x.offset..x.offset + x.size] == p)
  }

  ghost predicate Salvageable(log: Log, payloads: seq<seq<seq<byte>>>, c: seq<byte>, base: nat)
  {
    && |payloads| == |log.tracks|
    && (forall h :: 0 <= h < |log.tracks| ==> TrackSalvageable(log.tracks[h], payloads[h], c, base))
    && (forall g, h :: 0 <= g < h < |log.tracks| ==> Apart(log.tracks[g].samples, log.tracks[h].samples))
  }

  /** A sample that survives: its bytes are in the reopened file, and in the truncated one. */
  lemma SampleSalvaged(x: Sample, p: seq<byte>, c: seq<byte>, d: seq<byte>, base: nat, max: nat)
    requires SampleSalvageable(x, p, c, base) && KeptOutside(c, d, 0, base + 16) && |d| <= Max(|c|, base + 16)
    requires x.offset + x.size <= max <= |d|
    ensures StoredAt(d[..max], x, p, base + 16, max)
  {
    if x.offset + x.size <= |c| {
      SliceKept(c, d, 0, base + 16, x.offset, x.offset + x.size);
    }
    assert d[..max][x.offset..x.offset + x.size] == d[x.offset..x.offset + x.size];
  }

  lemma TrackSalvaged(t: TrackLog, p: seq<seq<byte>>, c: seq<byte>, d: seq<byte>, base: nat, n: nat, max: nat)
    requires TrackSalvageable(t, p, c, base) && KeptOutside(c, d, 0, base + 16) && |d| <= Max(|c|, base + 16)
    requires n <= |t.samples| && max <= |d| && forall i :: 0 <= i < n ==> t.chunks[i] + t.samples[i].size <= max
    ensures Stored(d[..max], t.samples[..n], p[..n], base + 16, max) && Growing(t.samples[..n])
    ensures OwnChunks(t.samples[..n], t.chunks[..n])
  {
    hide SampleSalvageable, KeptOutside;
    forall i | 0 <= i < n ensures StoredAt(d[..max], t.samples[..n][i], p[..n][i], base + 16, max) {
      SampleSalvaged(t.samples[i], p[i], c, d, base, max);
    }
  }

  lemma ApartPrefixes(a: seq<Sample>, b: seq<Sample>, i: nat, j: nat)
    requires Apart(a, b) && i <= |a| && j <= |b|
    ensures Apart(a[..i], b[..j])
  {
  }

  // ---------- what replay always gives ----------

  /** What any replay gives a track. */
  ghost predicate TrackSound(t: TrackLog)
  {
    GoodInfo(t.info) && ConfigSuits(t.info.kind, t.config) && |t.refs| <= REFS_SIZE && GoodMetas(t.metas, 0)
  }

  ghost predicate LogSound(log: Log)
  {
    GoodMetas(log.metas, 0) && forall h :: 0 <= h < |log.tracks| ==> TrackSound(log.tracks[h])
  }

  lemma NoMetasGood()
    ensures GoodMetas([], 0)
  {
  }

  lemma ApplySound(r: Record, log: Log)
    requires Replayable(r, log) && LogSound(log)
    ensures LogSound(Apply(r, log))
  {
    hide GoodMetas, Add, ValidKey;
    NoMetasGood();
    match r {
      case MetaItem(h, _, e) =>
        if h == 0 {
          AddKeepsGood(log.metas, 0, e.key, e.value);
        } else {
          AddKeepsGood(log.tracks[h - 1].metas, 0, e.key, e.value);
        }
      case _ =>
    }
  }

  lemma {:induction false} ApplyAllSound(rs: seq<Record>, log: Log)
    requires LogSound(log) && ApplyAll(rs, log).Some?
    ensures LogSound(ApplyAll(rs, log).value)
    decreases |rs|
  {
    hide LogSound;
    if rs != [] {
      ApplySound(rs[0], log);
      ApplyAllSound(rs[1..], Apply(rs[0], log));
    }
  }

  lemma EmptySound()
    ensures LogSound(EMPTY_LOG)
  {
    NoMetasGood();
  }

  // ---------- the recovered muxer ----------

  /** The track has what was kept of it, and these are the bytes of its samples. */
  ghost predicate Salvaged(t: Track, c: TrackLog, p: seq<seq<byte>>, eof: nat)
    reads t
  {
    && |p| == |c.samples| && IsCut(t, c, eof) && !t.live && t.payloads == p[..KeptCount(c.samples, c.chunks, eof)]
    && t.refs == RefsFrom(c.refs)
  }

  lemma CutRefs(t: Track, c: TrackLog, eof: nat)
    requires IsCut(t, c, eof) && Idle(t)
    ensures t.refs == RefsFrom(c.refs)
  {
    hide KeptCount, RefsFrom, RefBytes;
  }

  lemma RefsCount(refs: seq<u32>)
    ensures |RefBytes(refs)| == |refs|
  {
    RefBytesLength(refs);
  }

  lemma SalvagedValid(t: Track, c: TrackLog, p: seq<seq<byte>>, eof: nat, content: seq<byte>, base: nat)
    requires Salvaged(t, c, p, eof) && Idle(t) && t.handle > 0
    requires TrackSound(c) && TrackSalvageable(c, p, content, base)
    ensures t.Valid()
  {
    hide GoodMetas, SampleSalvageable, RefBytes, KeptCount, ConfigSuits, Growing;
    RefsCount(t.refs);
    ClipGood(t.info);
    forall i | 0 <= i < |t.samples| ensures |t.payloads[i]| == t.samples[i].size {
      PayloadSize(c.samples[i], p[i], content, base);
    }
  }

  lemma PayloadSize(x: Sample, p: seq<byte>, c: seq<byte>, base: nat)
    requires SampleSalvageable(x, p, c, base)
    ensures |p| == x.size
  {
  }

  lemma ClipGood(i: TrackInfo)
    requires GoodInfo(i)
    ensures GoodInfo(ClipInfo(i))
  {
  }

  /** The bytes of the kept samples, as the proof of the recovered muxer knows them. */
  ghost method Adopt(m: Mux, log: Log, payloads: seq<seq<seq<byte>>>, eof: nat)
    requires InOrder(m) && |log.tracks| == |m.tracks| == |payloads|
    requires forall h :: 0 <= h < |m.tracks| ==> |payloads[h]| == |log.tracks[h].samples|
    requires forall h :: 0 <= h < |m.tracks| ==> IsCut(m.tracks[h], log.tracks[h], eof)
    modifies m.tracks`live, m.tracks`payloads
    ensures forall h :: 0 <= h < |m.tracks| ==> Salvaged(m.tracks[h], log.tracks[h], payloads[h], eof)
  {
    hide KeptCount, RefBytes, RefsFrom, Permuted, Mux.HandlesOk, Idle;
    for k := 0 to |m.tracks|
      invariant forall h :: 0 <= h < |m.tracks| ==> IsCut(m.tracks[h], log.tracks[h], eof)
      invariant forall h :: 0 <= h < k ==> Salvaged(m.tracks[h], log.tracks[h], payloads[h], eof)
    {
      TracksDiffer(m, k);
      CutRefs(m.tracks[k], log.tracks[k], eof);
      var c := log.tracks[k];
      m.tracks[k].live, m.tracks[k].payloads := false, payloads[k][..KeptCount(c.samples, c.chunks, eof)];
    }
  }

  /** Every kept sample is in the truncated file. */
  lemma SalvagedSafe(m: Mux, log: Log, payloads: seq<seq<seq<byte>>>, c: seq<byte>, d: seq<byte>, max: nat)
    requires m.tracks == m.byHandle && |log.tracks| == |m.tracks|
    requires Salvageable(log, payloads, c, m.Base()) && KeptOutside(c, d, 0, m.Base() + 16) && |d| <= Max(|c|, m.Base() + 16)
    requires Titled(d) && FurthestOf(log, |log.tracks|, |d|, max) && max > 0
    requires forall h :: 0 <= h < |m.tracks| ==> Salvaged(m.tracks[h], log.tracks[h], payloads[h], |d|)
    requires m.file.Valid() && max <= |d| && m.file.content == d[..max] && 40 <= m.Base()
    ensures m.DataSafe(max)
  {
    hide KeptCount, KeptOutside, TrackSalvageable, RefBytes, Stored, Growing, Apart;
    FurthestBounds(log, payloads, c, m.Base(), |d|, max);
    assert d[..max][..32] == d[..32];
    forall h | 0 <= h < |m.byHandle|
      ensures Stored(m.file.content, m.byHandle[h].samples, m.byHandle[h].payloads, m.Base() + 16, max) && Growing(m.byHandle[h].samples)
    {
      var t := log.tracks[h];
      var n := KeptCount(t.samples, t.chunks, |d|);
      assert Salvaged(m.tracks[h], t, payloads[h], |d|);
      KeptWithin(log, h, |d|, max);
      TrackSalvaged(t, payloads[h], c, d, m.Base(), n, max);
    }
    forall g, h | 0 <= g < h < |m.byHandle| ensures Apart(m.byHandle[g].samples, m.byHandle[h].samples) {
      assert Salvaged(m.tracks[g], log.tracks[g], payloads[g], |d|) && Salvaged(m.tracks[h], log.tracks[h], payloads[h], |d|);
      ApartPrefixes(log.tracks[g].samples, log.tracks[h].samples,
                    KeptCount(log.tracks[g].samples, log.tracks[g].chunks, |d|), KeptCount(log.tracks[h].samples, log.tracks[h].chunks, |d|));
    }
  }

  lemma KeptWithin(log: Log, h: nat, eof: nat, max: nat)
    requires h < |log.tracks| && FurthestOf(log, |log.tracks|, eof, max)
    ensures var t := log.tracks[h];
            forall i :: 0 <= i < KeptCount(t.samples, t.chunks, eof) ==> t.chunks[i] + t.samples[i].size <= max
  {
    var t := log.tracks[h];
    forall i | 0 <= i < KeptCount(t.samples, t.chunks, eof) ensures t.chunks[i] + t.samples[i].size <= max {
      assert Survives(log, eof, h, i);
      assert EndOf(log, h, i) <= max;
    }
  }

  /** The truncated file ends with a kept sample, past the header of the media data. */
  lemma FurthestBounds(log: Log, payloads: seq<seq<seq<byte>>>, c: seq<byte>, base: nat, eof: nat, max: nat)
    requires Salvageable(log, payloads, c, base) && FurthestOf(log, |log.tracks|, eof, max) && max > 0
    ensures base + 16 <= max <= eof
  {
    var h: nat, i: nat :| h < |log.tracks| && Survives(log, eof, h, i) && EndOf(log, h, i) == max;
    var t := log.tracks[h];
    assert TrackSalvageable(t, payloads[h], c, base);
    assert SampleSalvageable(t.samples[i], payloads[h][i], c, base);
  }

  // ---------- recovery ----------

  const DEFAULT_MEGABYTES: u32 := 2

  /** What a recording leaves of its journal: the committed bytes, and after them anything. */
  ghost predicate JournalLeft(bytes: seq<byte>, safe: seq<byte>, synced: bool, path: seq<byte>, rs: seq<Record>, torn: seq<byte>, log: Log)
  {
    && safe <= bytes && |safe| < TWO63
    && safe == PHeader(if synced then |safe| else 0, DEFAULT_MEGABYTES, path, PRecords(rs, torn)) && PartOfCover(torn)
    && 0 < |path| < PATH_MAX && path[0] != 0
    && ApplyAll(rs, EMPTY_LOG) == Some(log) && |log.tracks| < TWO32 - 1
  }

  lemma JournalShape(bytes: seq<byte>, safe: seq<byte>, synced: bool, path: seq<byte>, rs: seq<Record>, torn: seq<byte>, log: Log) returns (tail: seq<byte>)
    requires JournalLeft(bytes, safe, synced, path, rs, torn, log)
    ensures bytes == PHeader(if synced then |safe| else 0, DEFAULT_MEGABYTES, path, PRecords(rs, torn + tail))
    ensures |safe| == 32 + |path| + |PRecords(rs, torn)| && |bytes| == 32 + |path| + |PRecords(rs, torn + tail)|
  {
    hide PHeader, PRecords, PartOfCover;
    tail := bytes[|safe|..];
    var size: u64 := if synced then |safe| else 0;
    assert bytes == safe + tail;
    HeaderTail(size, DEFAULT_MEGABYTES, path, PRecords(rs, torn), tail);
    RecordsTail(rs, torn, tail);
    HeaderLength(size, DEFAULT_MEGABYTES, path, PRecords(rs, torn + tail));
  }

  /** Replaying what a recording left into a fresh muxer. */
  method Refill(m: Mux, bytes: seq<byte>, end: u64, ghost safe: seq<byte>, ghost path: seq<byte>, ghost rs: seq<Record>, ghost torn: seq<byte>, ghost log: Log)
    returns (ok: bool)
    requires InOrder(m) && m.CoverOk() && m.tracks == [] && LogOf(m) == EMPTY_LOG
    requires JournalLeft(bytes, safe, true, path, rs, torn, log) && end == |safe|
    modifies m`tracks, m`byHandle, m`metas, m`cover
    ensures ok && InOrder(m) && m.CoverOk() && Reached(m, log, torn)
    ensures forall i :: 0 <= i < |m.tracks| ==> fresh(m.tracks[i])
  {
    hide PHeader, PRecords, InOrder, LogOf, Reached, PartOfCover;
    var c := new Cursor(bytes);
    ghost var tail := JournalShape(bytes, safe, true, path, rs, torn, log);
    ghost var header := JournalHeader(end, DEFAULT_MEGABYTES, path);
    assert c.Rest() == bytes;
    var h := ReadHeader(c, true, header, PRecords(rs, torn + tail));
    assert |c.Rest()| == |bytes| - c.pos;
    EmptyPlain();
    ok := ReplayJournal(m, c, end, true, rs, torn, tail, log);
  }

  lemma EmptyPlain()
    ensures ChaptersPlain(EMPTY_LOG)
  {
  }

  /** The recovered muxer holds, by handle, the longest prefixes that are still in the file. */
  ghost predicate RecoveredAs(m: Mux, log: Log, payloads: seq<seq<seq<byte>>>, eof: nat)
    reads m`byHandle, m.byHandle
  {
    && |m.byHandle| == |log.tracks| == |payloads|
    && forall h :: 0 <= h < |m.byHandle| ==> Salvaged(m.byHandle[h], log.tracks[h], payloads[h], eof)
  }

  /** Some sample of the log is still in the file. */
  ghost predicate SomeSurvive(log: Log, eof: nat)
  {
    exists h: nat, i: nat :: Survives(log, eof, h, i)
  }

  /** Some sample survives exactly when the furthest end is not 0. */
  lemma SurvivorsEnd(log: Log, payloads: seq<seq<seq<byte>>>, c: seq<byte>, base: nat, eof: nat, max: nat)
    requires Salvageable(log, payloads, c, base) && FurthestOf(log, |log.tracks|, eof, max)
    ensures max > 0 <==> SomeSurvive(log, eof)
  {
    hide KeptCount, Apart;
    if SomeSurvive(log, eof) {
      var h: nat, i: nat :| Survives(log, eof, h, i);
      assert TrackSalvageable(log.tracks[h], payloads[h], c, base);
      assert SampleSalvageable(log.tracks[h].samples[i], payloads[h][i], c, base);
      assert EndOf(log, h, i) <= max;
    }
  }

  /** Only the tracks matter, not the cover. */
  lemma FurthestByTracks(a: Log, b: Log, k: nat, eof: nat, max: nat)
    requires a.tracks == b.tracks && k <= |a.tracks| && FurthestOf(a, k, eof, max)
    ensures FurthestOf(b, k, eof, max)
  {
    hide KeptCount;
    forall h, i | 0 <= h < k && Survives(b, eof, h, i) ensures EndOf(b, h, i) <= max {
      assert Survives(a, eof, h, i) && EndOf(a, h, i) == EndOf(b, h, i);
    }
    if max > 0 {
      var h: nat, i: nat :| h < k && Survives(a, eof, h, i) && EndOf(a, h, i) == max;
      assert Survives(b, eof, h, i) && EndOf(b, h, i) == max;
    }
  }

  lemma PayloadCounts(log: Log, payloads: seq<seq<seq<byte>>>, c: seq<byte>, base: nat)
    requires Salvageable(log, payloads, c, base)
    ensures |payloads| == |log.tracks| && forall h :: 0 <= h < |log.tracks| ==> |payloads[h]| == |log.tracks[h].samples|
  {
    hide SampleSalvageable, Apart, Growing;
    forall h | 0 <= h < |log.tracks| ensures |payloads[h]| == |log.tracks[h].samples| {
      assert TrackSalvageable(log.tracks[h], payloads[h], c, base);
    }
  }

  /** The tracks of the recovered muxer are in order. */
  lemma SalvagedTracksOk(m: Mux, log: Log, payloads: seq<seq<seq<byte>>>, c: seq<byte>, eof: nat)
    requires InOrder(m) && m.journal == null && |log.tracks| == |m.tracks| && LogSound(log)
    requires Salvageable(log, payloads, c, m.Base())
    requires forall h :: 0 <= h < |m.tracks| ==> Salvaged(m.tracks[h], log.tracks[h], payloads[h], eof)
    ensures m.TracksOk()
  {
    hide Track.Valid, Salvaged, TrackSalvageable, TrackSound, Idle, Apart;
    forall h | 0 <= h < |m.byHandle| ensures m.byHandle[h].handle == h + 1 && m.byHandle[h].Valid() {
      assert Idle(m.tracks[h]) && TrackSound(log.tracks[h]);
      SalvagedValid(m.tracks[h], log.tracks[h], payloads[h], eof, c, m.Base());
    }
  }

  lemma TracksReached(m: Mux, log: Log, torn: seq<byte>)
    requires InOrder(m) && Reached(m, log, torn)
    ensures LogOf(m).tracks == log.tracks && |m.tracks| == |log.tracks| && m.tracks == m.byHandle
  {
    hide Idle, Track.View;
  }

  /** What the truncated file and the cut tracks have. */
  lemma CutSafe(m: Mux, log: Log, payloads: seq<seq<seq<byte>>>, c: seq<byte>, d: seq<byte>, max: nat)
    requires InOrder(m) && m.tracks == m.byHandle && m.journal == null && |log.tracks| == |m.tracks| && LogSound(log)
    requires Salvageable(log, payloads, c, m.Base()) && KeptOutside(c, d, 0, m.Base() + 16) && |d| <= Max(|c|, m.Base() + 16)
    requires Titled(d) && FurthestOf(log, |log.tracks|, |d|, max) && max > 0
    requires forall h :: 0 <= h < |m.tracks| ==> Salvaged(m.tracks[h], log.tracks[h], payloads[h], |d|)
    requires m.file.Valid() && max <= |d| && m.file.content == d[..max] && 40 <= m.Base()
    ensures m.TracksOk() && m.DataSafe(max) && RecoveredAs(m, log, payloads, |d|)
  {
    hide InOrder, LogSound, Titled, KeptOutside, FurthestOf, Salvaged, Mux.TracksOk, Mux.DataSafe, TrackSalvageable, Apart;
    SalvagedTracksOk(m, log, payloads, c, |d|);
    SalvagedSafe(m, log, payloads, c, d, max);
  }

  /** The cut, and the end of the file after the last kept sample. */
  method CutBack(m: Mux, ghost log: Log, ghost torn: seq<byte>, ghost payloads: seq<seq<seq<byte>>>, ghost c: seq<byte>) returns (max: nat)
    requires InOrder(m) && Reached(m, log, torn) && LogSound(log)
    requires Salvageable(log, payloads, c, m.Base()) && 40 <= m.Base()
    requires m.file.Valid() && KeptOutside(c, m.file.content, 0, m.Base() + 16) && |m.file.content| <= Max(|c|, m.Base() + 16)
    requires Titled(m.file.content) && m.journal == null
    modifies m.tracks`samples, m.tracks`chunks, m.tracks`live, m.tracks`payloads, m.file`content, m.file`pos
    ensures FurthestOf(log, |log.tracks|, |old(m.file.content)|, max) && m.file.Valid()
    ensures max <= |old(m.file.content)| && m.file.content == old(m.file.content)[..max]
    ensures max > 0 <==> SomeSurvive(log, |old(m.file.content)|)
    ensures max > 0 ==> m.TracksOk() && m.DataSafe(max)
    ensures max > 0 ==> RecoveredAs(m, log, payloads, |old(m.file.content)|)
  {
    hide KeptCount, KeptOutside, TrackSalvageable, RefBytes, FurthestOf, Salvaged, Titled, LogSound, Mux.DataSafe, Mux.TracksOk, InOrder;
    hide IsCut, Survives, Apart, Salvageable, RecoveredAs, SomeSurvive, Reached, LogOf;
    TracksReached(m, log, torn);
    var eof := m.file.SeekEnd();
    ghost var read := LogOf(m);
    max := CutTracks(m, eof);
    FurthestByTracks(read, log, |log.tracks|, eof, max);
    PayloadCounts(log, payloads, c, m.Base());
    SurvivorsEnd(log, payloads, c, m.Base(), eof, max);
    if max > 0 { FurthestBounds(log, payloads, c, m.Base(), eof, max); }
    Adopt(m, log, payloads, eof);
    m.file.Truncate(max);
    if max > 0 {
      CutSafe(m, log, payloads, c, old(m.file.content), max);
    }
  }

  /** How a recovery ends: the file is closed again, or nothing of it was left, or recovery did not get that far. */
  datatype Outcome = Unreadable | NothingCommitted | NotOpened | Emptied | Closed(result: SyncResult)

  /** The size of the reserved area: what the header says in megabytes is divided again as if it were bytes. */
  function ReopenMegabytes(said: u64): (n: nat)
    ensures said < 1024 * 1024 ==> n == DEFAULT_MEGABYTES
  {
    var n := said / 1024 / 1024;
    if n != 0 then n else DEFAULT_MEGABYTES
  }

  twostate lemma RecoveredKept(m: Mux, new log: Log, new payloads: seq<seq<seq<byte>>>, new eof: nat)
    requires old(RecoveredAs(m, log, payloads, eof)) && m.byHandle == old(m.byHandle)
    requires forall h :: 0 <= h < |m.byHandle| ==>
               m.byHandle[h].View() == old(m.byHandle[h].View()) && m.byHandle[h].live == old(m.byHandle[h].live)
               && m.byHandle[h].refs == old(m.byHandle[h].refs) && m.byHandle[h].payloads == old(m.byHandle[h].payloads)
    ensures RecoveredAs(m, log, payloads, eof)
  {
    hide KeptCount;
    forall h | 0 <= h < |m.byHandle| ensures Salvaged(m.byHandle[h], log.tracks[h], payloads[h], eof) {
      assert old(Salvaged(m.byHandle[h], log.tracks[h], payloads[h], eof));
    }
  }

  lemma SalvagedWithinLimits(m: Mux, log: Log, payloads: seq<seq<seq<byte>>>, c: seq<byte>, eof: nat)
    requires RecoveredAs(m, log, payloads, eof) && Salvageable(log, payloads, c, m.Base())
    ensures WithinLimits(m)
  {
    hide KeptCount, SampleSalvageable, Apart, Growing;
    forall h | 0 <= h < |m.byHandle|
      ensures |m.byHandle[h].samples| <= B.MAX_ENTRY_COUNT && |m.byHandle[h].syncs| <= B.MAX_ENTRY_COUNT
    {
      assert Salvaged(m.byHandle[h], log.tracks[h], payloads[h], eof) && TrackSalvageable(log.tracks[h], payloads[h], c, m.Base());
    }
  }

  /** The order, the numbers and the times of the tracks are those a sync of the tables gives tracks that were in the order of their handles. */
  ghost predicate Rewritten(m: Mux)
    reads m`byHandle, m`tracks, m.byHandle, m.tracks
  {
    RefreshedFrom(m, m.byHandle, Mux.States(m.byHandle))
  }

  lemma RewrittenNow(m: Mux, states: seq<TrackState>)
    requires RefreshedFrom(m, m.byHandle, states)
    ensures Rewritten(m)
  {
    hide Entries, Sorted, Numbered, Lasting, DtsOf;
  }

  /** There is no movie box, because some track with samples has a configuration that cannot be written; the media data is there. */
  ghost predicate OnlyData(m: Mux, data: seq<byte>)
    reads m`byHandle, m.byHandle, m.file`content
  {
    RefsResolve(m) && !AllDescribed(m) && m.Base() + 16 <= |m.file.content| && data <= m.file.content[m.Base() + 16..]
  }

  twostate lemma DataLeftAlone(m: Mux)
    requires NoMovieBox(m) && m.Base() + 16 <= |old(m.file.content)|
    ensures OnlyData(m, old(m.file.content)[m.Base() + 16..])
  {
    hide RefsResolve, AllDescribed;
    var from := m.Base() + 16;
    assert forall i :: 0 <= i < |old(m.file.content)| - from ==> m.file.content[from..][i] == old(m.file.content)[from..][i];
  }

  /**
     How a recovered muxer was closed on a file whose media data is `data`: the tables of
     all tracks were written, or it was reported as a success without a movie box, or it
     failed. On a device that takes every byte, which of them follows from the references,
     the configurations and the size of the movie box.
  */
  ghost predicate ClosedAs(m: Mux, fixed: M.Fixed, data: seq<byte>, size: nat, perfect: bool, r: SyncResult, moov: B.Box, tiled: bool)
    reads m, m.byHandle, m.tracks, m.file, m.journal
  {
    && m.Valid() && WithinLimits(m) && (r.Written? || r.Unwritten? || r.Failed?)
    && (r.Written? ==> Rewritten(m) && Finished(m, fixed, data, moov, tiled))
    && (r.Unwritten? ==> OnlyData(m, data))
    && (perfect ==> Rewritten(m) && AsIntended(m, fixed, size, true, r, moov, tiled))
  }

  /**
     Closing the recovered muxer: its tables are written, and its tracks keep what was
     recovered. On a device that takes every byte, what becomes of the movie box is what
     becomes of it on any close.
  */
  method Rewrite(m: Mux, fixed: M.Fixed, ghost log: Log, ghost payloads: seq<seq<seq<byte>>>, ghost c: seq<byte>, ghost eof: nat, ghost max: nat)
    returns (r: SyncResult, ghost moov: B.Box, tiled: bool)
    requires ValidUpTo(m, max) && m.journal == null && m.tracks == m.byHandle
    requires RecoveredAs(m, log, payloads, eof) && Salvageable(log, payloads, c, m.Base())
    modifies m`tracks, m`maxReached, m.file
    modifies m.tracks`id, m.tracks`times, m.tracks`duration, m.tracks`durationMoov, m.tracks`timed
    ensures RecoveredAs(m, log, payloads, eof) && m.Base() + 16 <= |old(m.file.content)|
    ensures ClosedAs(m, fixed, old(m.file.content)[m.Base() + 16..], |old(m.file.content)|, old(m.file.grants) == [], r, moov, tiled)
  {
    hide Finished, ValidUpTo, Salvageable, RecoveredAs, WithinLimits, Mux.Valid, RefreshedFrom, AsIntended, NoMovieBox;
    hide Rewritten, OnlyData, Mux.States;
    SalvagedWithinLimits(m, log, payloads, c, eof);
    ghost var states := Mux.States(m.byHandle);
    r, moov, tiled := SyncInternal(m, fixed, true, max);
    RecoveredKept(m, log, payloads, eof);
    SalvagedWithinLimits(m, log, payloads, c, eof);
    ValidAtPosition(m);
    if RefreshedFrom(m, m.byHandle, states) { RewrittenNow(m, states); }
    if r.Unwritten? { DataLeftAlone(m); }
  }

  /** A recovered muxer satisfies what every operation keeps. */
  lemma RecoveredValid(m: Mux, log: Log, torn: seq<byte>, max: nat)
    requires m.TracksOk() && m.DataSafe(max) && m.CoverOk() && m.metas == log.metas && LogSound(log)
    requires m.metaWritten == 0 && m.journal == null && m.megabytes < 4096
    ensures ValidUpTo(m, max)
  {
    hide Mux.TracksOk, Mux.DataSafe, GoodMetas, TrackSound;
  }

  lemma ReplayedSound(rs: seq<Record>, log: Log)
    requires ApplyAll(rs, EMPTY_LOG) == Some(log)
    ensures LogSound(log)
  {
    hide LogSound;
    EmptySound();
    ApplyAllSound(rs, EMPTY_LOG);
  }

  lemma LeftSound(bytes: seq<byte>, safe: seq<byte>, path: seq<byte>, rs: seq<Record>, torn: seq<byte>, log: Log)
    requires JournalLeft(bytes, safe, true, path, rs, torn, log)
    ensures LogSound(log)
  {
    hide PHeader, PRecords, PartOfCover, LogSound;
    ReplayedSound(rs, log);
  }

  lemma MetasReached(m: Mux, log: Log, torn: seq<byte>)
    requires Reached(m, log, torn)
    ensures m.metas == log.metas && (torn == [] ==> m.cover == log.cover)
  {
  }

  lemma LessPerfect(m: Mux, fixed: M.Fixed, data: seq<byte>, size: nat, perfect: bool, perfect': bool, r: SyncResult, moov: B.Box, tiled: bool)
    requires ClosedAs(m, fixed, data, size, perfect, r, moov, tiled) && (perfect' ==> perfect)
    ensures ClosedAs(m, fixed, data, size, perfect', r, moov, tiled)
  {
    hide Rewritten, Finished, OnlyData, AsIntended, WithinLimits, Mux.Valid;
  }

  lemma ClosedFile(m: Mux, fixed: M.Fixed, data: seq<byte>, size: nat, perfect: bool, r: SyncResult, moov: B.Box, tiled: bool)
    requires ClosedAs(m, fixed, data, size, perfect, r, moov, tiled)
    ensures m.file.Valid()
  {
    hide Rewritten, Finished, OnlyData, AsIntended, WithinLimits, Mux.TracksOk, Mux.MetasOk, Mux.JournalOk, Mux.LogOk;
  }

  /** Everything recovered: the tracks, the metadata of the file, and the cover if no part of one was committed. */
  ghost predicate RecoveredFrom(m: Mux, log: Log, payloads: seq<seq<seq<byte>>>, torn: seq<byte>, eof: nat)
    reads m`byHandle, m.byHandle, m`metas, m`cover
  {
    RecoveredAs(m, log, payloads, eof) && m.metas == log.metas && (torn == [] ==> m.cover == log.cover)
  }

  /** Replay, cut and close. */
  method Restore(m: Mux, bytes: seq<byte>, end: u64, fixed: M.Fixed,
                 ghost safe: seq<byte>, ghost path: seq<byte>, ghost rs: seq<Record>, ghost torn: seq<byte>,
                 ghost log: Log, ghost payloads: seq<seq<seq<byte>>>, ghost c: seq<byte>)
    returns (o: Outcome, ghost max: nat, ghost moov: B.Box, tiled: bool)
    requires InOrder(m) && m.CoverOk() && m.tracks == [] && LogOf(m) == EMPTY_LOG && m.journal == null && m.metaWritten == 0
    requires JournalLeft(bytes, safe, true, path, rs, torn, log) && end == |safe|
    requires Salvageable(log, payloads, c, m.Base()) && 40 <= m.Base() && m.megabytes < 4096
    requires m.file.Valid() && KeptOutside(c, m.file.content, 0, m.Base() + 16) && |m.file.content| <= Max(|c|, m.Base() + 16)
    requires Titled(m.file.content)
    modifies m, m.file
    ensures m.file.Valid() && (o.Emptied? || o.Closed?)
    ensures var eof := |old(m.file.content)|;
            && (o.Emptied? <==> !SomeSurvive(log, eof)) && FurthestOf(log, |log.tracks|, eof, max) && max <= eof
            && (o.Emptied? ==> m.file.content == [])
            && (o.Closed? ==>
                  && m.Base() + 16 <= max && RecoveredFrom(m, log, payloads, torn, eof)
                  && ClosedAs(m, fixed, old(m.file.content)[m.Base() + 16..max], max, old(m.file.grants) == [], o.result, moov, tiled))
  {
    hide PHeader, PRecords, InOrder, LogOf, Reached, PartOfCover, JournalLeft, Salvageable, FurthestOf, SomeSurvive, Titled, KeptOutside;
    hide LogSound, Mux.Valid, Mux.TracksOk, Mux.DataSafe, RecoveredAs, ValidUpTo, ClosedAs;
    moov, tiled := B.Opaque(0, []), false;
    var ok := Refill(m, bytes, end, safe, path, rs, torn, log);
    LeftSound(bytes, safe, path, rs, torn, log);
    MetasReached(m, log, torn);
    TracksReached(m, log, torn);
    ghost var d, eof := m.file.content, |m.file.content|;
    var end' := CutBack(m, log, torn, payloads, c);
    max := end';
    if end' == 0 { return Emptied, max, moov, tiled; }
    FurthestBounds(log, payloads, c, m.Base(), eof, max);
    RecoveredValid(m, log, torn, max);
    var r;
    r, moov, tiled := Rewrite(m, fixed, log, payloads, c, eof, max);
    assert d[..max][m.Base() + 16..] == d[m.Base() + 16..max];
    ClosedFile(m, fixed, d[m.Base() + 16..max], max, old(m.file.grants) == [], r, moov, tiled);
    return Closed(r), max, moov, tiled;
  }

  const RECOVERY_BASE: nat := DEFAULT_MEGABYTES * 1024 * 1024

  /** The timescale of the movie is not journalled. */
  const RECOVERED_TIMESCALE: u32 := 1000000

  /** The media data of the recording up to a position; nothing if the file does not reach it. */
  function DataBefore(c: seq<byte>, max: nat): seq<byte>
    requires RECOVERY_BASE + 16 <= max
  {
    if max <= |c| then c[RECOVERY_BASE + 16..max] else []
  }

  lemma DataKept(c: seq<byte>, d: seq<byte>, max: nat)
    requires KeptOutside(c, d, 0, RECOVERY_BASE + 16) && |d| == Max(|c|, RECOVERY_BASE + 16)
    ensures RECOVERY_BASE + 16 <= max <= |d| ==> d[RECOVERY_BASE + 16..max] == DataBefore(c, max)
  {
  }

  lemma OpenedData(c: seq<byte>, d: seq<byte>)
    requires KeptOutside(c, d, 0, RECOVERY_BASE + 16) && RECOVERY_BASE + 16 <= |d| <= Max(|c|, RECOVERY_BASE + 16)
    ensures |d| == Max(|c|, RECOVERY_BASE + 16)
  {
  }

  /** A reopened recording is empty, and its file has its brands. */
  lemma Reopened(m: Mux)
    requires m.Valid() && m.byHandle == [] && m.metas == [] && m.cover.None? && m.metaWritten == 0
    ensures InOrder(m) && m.CoverOk() && m.tracks == [] && LogOf(m) == EMPTY_LOG
    ensures Titled(m.file.content) && m.file.Valid() && 40 <= m.Base() && m.Base() + 16 <= |m.file.content| && m.megabytes < 4096
  {
    m.SameTracks();
  }

  /** The header of what a recording left. */
  method ReadLeft(bytes: seq<byte>, ghost safe: seq<byte>, ghost synced: bool, ghost path: seq<byte>, ghost rs: seq<Record>,
                  ghost torn: seq<byte>, ghost log: Log) returns (r: Option<JournalHeader>)
    requires JournalLeft(bytes, safe, synced, path, rs, torn, log)
    ensures r == Some(JournalHeader(if synced then |safe| else 0, DEFAULT_MEGABYTES, path)) && 32 <= |safe|
    ensures 0 < |path| < PATH_MAX
  {
    hide PHeader, PRecords, PartOfCover;
    var c := new Cursor(bytes);
    ghost var tail := JournalShape(bytes, safe, synced, path, rs, torn, log);
    ghost var header := JournalHeader(if synced then |safe| else 0, DEFAULT_MEGABYTES, path);
    assert c.Rest() == bytes;
    r := ReadHeader(c, true, header, PRecords(rs, torn + tail));
  }

  /**
     Recovery of a recording from the journal and the media file it left. The journal
     has its committed bytes; the media file may have lost any of its end.
  */
  method Recover(bytes: seq<byte>, file: DataFile, fixed: M.Fixed,
                 ghost safe: seq<byte>, ghost synced: bool, ghost path: seq<byte>, ghost rs: seq<Record>, ghost torn: seq<byte>,
                 ghost log: Log, ghost payloads: seq<seq<seq<byte>>>)
    returns (o: Outcome, m: Option<Mux>, ghost max: nat, ghost moov: B.Box, tiled: bool)
    requires file.Valid() && file.pos == 0
    requires JournalLeft(bytes, safe, synced, path, rs, torn, log)
    requires Salvageable(log, payloads, file.content, RECOVERY_BASE)
    modifies file
    ensures !o.Unreadable? && (o.NothingCommitted? <==> !synced) && (old(file.grants) == [] ==> !o.NotOpened?)
    ensures o.NothingCommitted? ==> unchanged(file)
    ensures file.Valid() && (o.NotOpened? ==> KeptOutside(old(file.content), file.content, 0, RECOVERY_BASE + 16))
    ensures var eof := Max(|old(file.content)|, RECOVERY_BASE + 16);
            && (o.Emptied? ==> !SomeSurvive(log, eof) && file.content == [])
            && (o.Closed? ==>
                  && SomeSurvive(log, eof) && FurthestOf(log, |log.tracks|, eof, max) && RECOVERY_BASE + 16 <= max <= eof
                  && m.Some? && fresh(m.value) && m.value.file == file && m.value.timescale == RECOVERED_TIMESCALE && m.value.megabytes == DEFAULT_MEGABYTES
                  && RecoveredFrom(m.value, log, payloads, torn, eof)
                  && ClosedAs(m.value, fixed, DataBefore(old(file.content), max), max, old(file.grants) == [], o.result, moov, tiled))
  {
    hide PHeader, PRecords, InOrder, LogOf, PartOfCover, JournalLeft, Salvageable, FurthestOf, SomeSurvive, Titled, KeptOutside;
    hide Mux.Valid, Mux.TracksOk, Mux.DataSafe, RecoveredFrom, ClosedAs;
    moov, tiled, max, m := B.Opaque(0, []), false, 0, None;
    var header := ReadLeft(bytes, safe, synced, path, rs, torn, log);
    if header.None? { return Unreadable, m, max, moov, tiled; }
    if header.value.tablesSize == 0 { return NothingCommitted, m, max, moov, tiled; }
    var mux := Open(RECOVERED_TIMESCALE, ReopenMegabytes(header.value.megabytes), header.value.path, file, null);
    if mux.None? { return NotOpened, m, max, moov, tiled; }
    Reopened(mux.value);
    OpenedData(old(file.content), file.content);
    ghost var d, perfect := file.content, file.grants == [];
    o, max, moov, tiled := Restore(mux.value, bytes, header.value.tablesSize, fixed, safe, path, rs, torn, log, payloads, old(file.content));
    DataKept(old(file.content), d, max);
    if o.Closed? {
      LessPerfect(mux.value, fixed, DataBefore(old(file.content), max), max, perfect, old(file.grants) == [], o.result, moov, tiled);
    }
    return o, mux, max, moov, tiled;
  }
}
