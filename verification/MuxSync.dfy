/**
 Writing the tables to the media file: the final size of the media data, the
 tracks in order, and the movie box in the reserved area or at the end.
 */
module MuxSync {
  import opened Bytes
  import opened Wrappers
  import opened TimeTable
  import opened MuxTrack
  import opened MuxFile
  import opened DataSafety
  import opened TrackOrder
  import opened BoxLemmas
  import opened BoxTree
  import opened TablesMemory
  import BoxWriter
  import opened ConfigBytes
  import opened HeaderBoxes
  import opened Timescale
  import opened FileLayout
  import opened Movie
  import opened Mux
  import S = JournalSteps
  import R = JournalReplay
  import J = JournalFormat
  import M = Metadata
  import T = MovieTexts

  /** `Unwritten` is reported as a success, although there is no movie box: its writer gave up. */
  datatype SyncResult = Written | Unwritten | Skipped | NoBuffer | Failed

  /** Writes between the brands and the media data leave every sample alone. */
  twostate lemma HeaderWritten(mux: Mux, new high: nat)
    requires old(mux.DataSafe(high)) && mux.byHandle == old(mux.byHandle)
    requires forall h :: 0 <= h < |mux.byHandle| ==>
               mux.byHandle[h].samples == old(mux.byHandle[h].samples) && mux.byHandle[h].payloads == old(mux.byHandle[h].payloads)
    requires mux.file.Valid() && KeptOutside(old(mux.file.content), mux.file.content, 32, mux.Base() + 16)
    ensures mux.DataSafe(high)
  {
    hide Stored, Growing, Apart, KeptOutside;
    var c, d := old(mux.file.content), mux.file.content;
    KeptLength(c, d, 32, mux.Base() + 16);
    TitleKept(c, d, 32, mux.Base() + 16);
    forall h | 0 <= h < |mux.byHandle|
      ensures Stored(d, mux.byHandle[h].samples, mux.byHandle[h].payloads, mux.Base() + 16, high) && Growing(mux.byHandle[h].samples)
    {
      assert old(Growing(mux.byHandle[h].samples));
      StoredFrame(c, d, mux.byHandle[h].samples, mux.byHandle[h].payloads, mux.Base() + 16, high, 32, mux.Base() + 16);
    }
    forall g, h | 0 <= g < h < |mux.byHandle| ensures Apart(mux.byHandle[g].samples, mux.byHandle[h].samples) {
      assert old(Apart(mux.byHandle[g].samples, mux.byHandle[h].samples));
    }
  }

  /** The size of the media data, from where it starts to the end of the file. */
  method WriteMdatHeader(mux: Mux, ghost high: nat) returns (ok: bool)
    requires mux.DataSafe(high)
    modifies mux.file
    ensures mux.DataSafe(high)
    ensures KeptOutside(old(mux.file.content), mux.file.content, mux.Base(), mux.Base() + 16)
    ensures ok ==> |mux.file.content| == |old(mux.file.content)| && Headed(mux.file.content, mux.Base(), |mux.file.content|)
    ensures ok ==> mux.file.content[mux.Base() + 16..] == old(mux.file.content)[mux.Base() + 16..]
    ensures old(mux.file.grants) == [] ==> ok && mux.file.grants == []
  {
    hide Stored, Growing, Apart, Overwrite, WordBytes, MdatWords, KeptOutside;
    var end := mux.file.SeekEnd();
    var written := end - mux.Base() - 8;
    mux.file.SeekTo(mux.Base());
    ok := mux.file.WriteMdat(written);
    OverwrittenAt(old(mux.file.content), mux.Base(), WordBytes(MdatWords(written)), mux.file.content, ok);
    SliceKept(old(mux.file.content), mux.file.content, mux.Base(), mux.Base() + 16, mux.Base() + 16, |old(mux.file.content)|);
    KeptWider(old(mux.file.content), mux.file.content, mux.Base(), mux.Base() + 16, 32, mux.Base() + 16);
    HeaderWritten(mux, high);
  }

  lemma OverwrittenAt(c: seq<byte>, at: nat, b: seq<byte>, d: seq<byte>, ok: bool)
    requires at + |b| <= |c| && KeptOutside(c, d, at, at + |b|)
    requires ok ==> d == Overwrite(c, at, b)
    ensures ok ==> |d| == |c| && d[at..at + |b|] == b
  {
  }

  lemma KeptWider(c: seq<byte>, d: seq<byte>, lo: int, hi: int, lo': int, hi': int)
    requires KeptOutside(c, d, lo, hi) && lo' <= lo && hi <= hi'
    ensures KeptOutside(c, d, lo', hi')
  {
  }

  // ---------- the order of the tracks and their times ----------

  twostate lemma ResortedTracksOk(mux: Mux)
    requires old(mux.TracksOk()) && mux.byHandle == old(mux.byHandle)
    requires mux.tracks == Sorted(old(mux.tracks))
    requires forall h :: 0 <= h < |mux.byHandle| ==> mux.byHandle[h].Valid() && mux.byHandle[h].live == old(mux.byHandle[h].live)
    ensures mux.TracksOk()
  {
    hide Track.Valid, Sorted, Ordered;
    SortedHas(old(mux.tracks));
  }

  /** The new order and numbers of the tracks. */
  method Resort(mux: Mux)
    requires mux.TracksOk()
    modifies mux`tracks, mux.tracks`id
    ensures mux.TracksOk() && mux.tracks == Sorted(old(mux.tracks)) && Numbered(mux.tracks)
    ensures forall h :: 0 <= h < |mux.byHandle| ==> mux.byHandle[h].State() == old(mux.byHandle[h].State())
    ensures forall h :: 0 <= h < |mux.byHandle| ==>
              mux.byHandle[h].samples == old(mux.byHandle[h].samples) && mux.byHandle[h].payloads == old(mux.byHandle[h].payloads)
    ensures |mux.tracks| == |old(mux.tracks)| && forall i :: 0 <= i < |mux.tracks| ==> mux.tracks[i] in old(mux.tracks)
    ensures InFileOrder(mux.tracks) && SameOrder(old(mux.tracks), mux.tracks)
  {
    hide Track.Valid, Sorted, Track.State, InFileOrder, SameOrder;
    mux.SameTracks();
    mux.tracks := SortTracks(mux.tracks);
    ValidTracks(mux);
    ResortedTracksOk(mux);
    SortedMembers(old(mux.tracks));
  }

  twostate lemma ValidTracks(mux: Mux)
    requires old(mux.TracksOk()) && mux.byHandle == old(mux.byHandle)
    requires forall h :: 0 <= h < |mux.byHandle| ==> old(mux.byHandle[h].Valid()) ==> mux.byHandle[h].Valid()
    ensures forall h :: 0 <= h < |mux.byHandle| ==> mux.byHandle[h].Valid()
  {
    hide Track.Valid;
  }

  lemma SortedMembers(ts: seq<Track>)
    ensures |Sorted(ts)| == |ts| && forall i :: 0 <= i < |ts| ==> Sorted(ts)[i] in ts
  {
    hide Sorted, Ordered;
    SortedHas(ts);
    assert |multiset(ts)| == |ts| && |multiset(Sorted(ts))| == |Sorted(ts)|;
    forall i | 0 <= i < |ts| ensures Sorted(ts)[i] in ts {
      assert Sorted(ts)[i] in multiset(Sorted(ts));
    }
  }

  /** The durations of the track are those of its times, in its own timescale and in the movie's. */
  ghost predicate Lasting(t: Track, timescale: u32)
    reads t`samples, t`duration, t`durationMoov
  {
    && t.info.timescale > 0
    && t.duration == Sum(Diffs(DtsOf(t.samples))) % TWO64
    && t.durationMoov == MovieDuration(Diffs(DtsOf(t.samples)), t.info.timescale, timescale) % TWO64
  }

  /** The times of the track are recomputed, and its durations. */
  twostate predicate Retimed(t: Track, timescale: u32)
    reads t
  {
    && t.State() == old(t.State()).(times := Entries(DtsOf(t.samples)))
    && t.payloads == old(t.payloads) && |t.times| >= t.writtenTimes && Lasting(t, timescale)
  }

  lemma TrackTimescale(t: Track)
    requires t.Valid()
    ensures t.info.timescale > 0
  {
    hide R.GoodMetas, R.InRange, Entries, SyncsWithin;
  }

  method RetimeOne(mux: Mux, i: nat)
    requires mux.TracksOk() && i < |mux.tracks|
    modifies {mux.tracks[i]}`times, {mux.tracks[i]}`duration, {mux.tracks[i]}`durationMoov, {mux.tracks[i]}`timed
    ensures mux.TracksOk() && Retimed(mux.tracks[i], mux.timescale)
  {
    hide Track.Valid, Mux.TracksOk, Entries;
    mux.TrackSyncable(i);
    ghost var k: nat := mux.tracks[i].handle - 1;
    TrackTimescale(mux.tracks[i]);
    mux.tracks[i].Retime(mux.timescale);
    mux.ChangedTracksOk(k);
  }

  /** The run-length times of every track. */
  method RetimeAll(mux: Mux)
    requires mux.TracksOk()
    modifies mux.tracks`times, mux.tracks`duration, mux.tracks`durationMoov, mux.tracks`timed
    ensures mux.TracksOk()
    ensures forall h :: 0 <= h < |mux.byHandle| ==> Retimed(mux.byHandle[h], mux.timescale)
  {
    hide Track.Valid, Mux.TracksOk, Entries, Track.State, Lasting;
    mux.SameTracks();
    for i := 0 to |mux.tracks|
      invariant mux.TracksOk()
      invariant forall j :: 0 <= j < i ==> Retimed(mux.tracks[j], mux.timescale)
      invariant forall j :: i <= j < |mux.tracks| ==> unchanged(mux.tracks[j])
    {
      RetimeOne(mux, i);
    }
    forall h | 0 <= h < |mux.byHandle| ensures Retimed(mux.byHandle[h], mux.timescale) {
      assert mux.byHandle[h] in mux.tracks;
    }
  }

  /** A new order is no matter for a journal that has seen every track. */
  twostate lemma ResortedLogOk(mux: Mux)
    requires old(mux.LogOk()) && mux.TracksOk() && mux.byHandle == old(mux.byHandle) && |mux.tracks| == |old(mux.tracks)|
    requires forall h :: 0 <= h < |mux.byHandle| ==> mux.byHandle[h].State() == old(mux.byHandle[h].State())
    requires unchanged(mux`log) && unchanged(mux`intact) && unchanged(mux`ended) && unchanged(mux`stale)
    requires unchanged(mux`metas) && unchanged(mux`metaWritten)
    requires mux.journal != null && mux.intact && !mux.ended ==> |mux.log.tracks| == |mux.tracks|
    ensures mux.LogOk()
  {
    hide R.InStep, R.FileMetasInStep, Track.Valid, R.ClipInfo, Mux.TracksOk;
    mux.SameTracks();
    if mux.journal != null && mux.intact {
      forall h | 0 <= h < |mux.byHandle| ensures mux.Begun(h) {
        assert old(mux.Begun(h));
        assert mux.byHandle[h].State() == old(mux.byHandle[h].State());
      }
    }
    if mux.journal != null && mux.intact && !mux.ended {
      forall h | 0 <= h < |mux.byHandle| ensures R.InStep(mux.byHandle[h].State(), mux.log) {
        assert old(R.InStep(mux.byHandle[h].State(), mux.log));
      }
    }
  }

  /** Longer time tables are still in step. */
  twostate lemma RetimedLogOk(mux: Mux)
    requires old(mux.LogOk()) && mux.byHandle == old(mux.byHandle) && mux.tracks == old(mux.tracks)
    requires forall h :: 0 <= h < |mux.byHandle| ==> Retimed(mux.byHandle[h], mux.timescale)
    requires unchanged(mux`log) && unchanged(mux`intact) && unchanged(mux`ended) && unchanged(mux`stale)
    requires unchanged(mux`metas) && unchanged(mux`metaWritten)
    ensures mux.LogOk()
  {
    hide R.InStep, R.FileMetasInStep, Track.Valid, R.ClipInfo, Entries;
    if mux.journal != null && mux.intact {
      forall h | 0 <= h < |mux.byHandle| ensures mux.Begun(h) {
        assert old(mux.Begun(h));
        assert Retimed(mux.byHandle[h], mux.timescale);
      }
    }
    if mux.journal != null && mux.intact && !mux.ended {
      forall h | 0 <= h < |mux.byHandle| ensures R.InStep(mux.byHandle[h].State(), mux.log) {
        assert old(R.InStep(mux.byHandle[h].State(), mux.log));
        assert Retimed(mux.byHandle[h], mux.timescale);
        S.TimesInStep(old(mux.byHandle[h].State()), mux.log, mux.byHandle[h].times);
      }
    }
  }

  // ---------- references ----------

  /** A reference that the movie box can express: to a track that exists, and for other than metadata tracks a chapter track. */
  ghost predicate Resolves(mux: Mux, t: Track, ref: u32)
    reads mux`byHandle
  {
    1 <= ref <= |mux.byHandle| && (t.info.kind.Timed? || mux.byHandle[ref - 1].info.kind.Chapters?)
  }

  ghost predicate RefsResolve(mux: Mux)
    reads mux`byHandle, mux.byHandle
  {
    forall h, i :: 0 <= h < |mux.byHandle| && mux.byHandle[h].samples != [] && 0 <= i < |mux.byHandle[h].refs| ==>
      Resolves(mux, mux.byHandle[h], mux.byHandle[h].refs[i])
  }

  /** The references of the tracks that have samples. */
  method CheckRefs(mux: Mux) returns (ok: bool)
    requires mux.TracksOk()
    ensures ok <==> RefsResolve(mux)
  {
    hide Track.Valid, Mux.TracksOk;
    mux.SameTracks();
    for i := 0 to |mux.tracks|
      invariant forall j, k :: 0 <= j < i && mux.tracks[j].samples != [] && 0 <= k < |mux.tracks[j].refs| ==>
                  Resolves(mux, mux.tracks[j], mux.tracks[j].refs[k])
    {
      var t := mux.tracks[i];
      if |t.samples| > 0 {
        for k := 0 to |t.refs|
          invariant forall m :: 0 <= m < k ==> Resolves(mux, t, t.refs[m])
        {
          var ref := mux.FindByHandle(t.refs[k]);
          if ref.None? || !(t.info.kind.Timed? || ref.value.info.kind.Chapters?) {
            assert t == mux.byHandle[t.handle - 1];
            return false;
          }
        }
      }
    }
    forall h, k | 0 <= h < |mux.byHandle| && mux.byHandle[h].samples != [] && 0 <= k < |mux.byHandle[h].refs|
      ensures Resolves(mux, mux.byHandle[h], mux.byHandle[h].refs[k])
    {
      assert mux.byHandle[h] in mux.tracks;
    }
    return true;
  }

  // ---------- what the boxes say of the tracks ----------

  /** The numbers of the tracks that are referred to. */
  ghost function RefIds(byHandle: seq<Track>, refs: seq<u32>): (ids: seq<u32>)
    ensures |ids| == |refs|
    reads byHandle
  {
    seq(|refs|, i requires 0 <= i < |refs| reads byHandle =>
      if 1 <= refs[i] <= |byHandle| then byHandle[refs[i] - 1].id % TWO32 else 0)
  }

  ghost function RowOf(t: Track, byHandle: seq<Track>): TrackRow
    reads byHandle, t
  {
    TrackRow(t.State(), t.id % TWO32, t.duration, t.durationMoov, RefIds(byHandle, t.refs))
  }

  ghost function RowsOf(tracks: seq<Track>, byHandle: seq<Track>): (rows: seq<TrackRow>)
    ensures |rows| == |tracks| && forall i :: 0 <= i < |rows| ==> rows[i] == RowOf(tracks[i], byHandle)
    reads byHandle, tracks
  {
    seq(|tracks|, i requires 0 <= i < |tracks| reads byHandle, tracks => RowOf(tracks[i], byHandle))
  }

  ghost function Rows(mux: Mux): (rows: seq<TrackRow>)
    ensures |rows| == |mux.tracks| && forall i :: 0 <= i < |rows| ==> rows[i] == RowOf(mux.tracks[i], mux.byHandle)
    reads mux`byHandle, mux.byHandle, mux`tracks, mux.tracks
  {
    RowsOf(mux.tracks, mux.byHandle)
  }

  /** Collected when the boxes are made, once every reference is known to resolve. */
  method BuildRow(mux: Mux, t: Track) returns (row: TrackRow)
    requires mux.TracksOk()
    ensures row == RowOf(t, mux.byHandle)
  {
    hide Track.Valid, Mux.TracksOk, Track.State;
    mux.SameTracks();
    var ids: seq<u32> := [];
    for k := 0 to |t.refs|
      invariant |ids| == k && ids == RefIds(mux.byHandle, t.refs)[..k]
    {
      var ref := mux.FindByHandle(t.refs[k]);
      var id: u32 := if ref.Some? then ref.value.id % TWO32 else 0;
      assert RefIds(mux.byHandle, t.refs)[..k + 1] == RefIds(mux.byHandle, t.refs)[..k] + [id];
      ids := ids + [id];
    }
    return TrackRow(t.State(), t.id % TWO32, t.duration, t.durationMoov, ids);
  }

  method BuildRows(mux: Mux) returns (rows: seq<TrackRow>)
    requires mux.TracksOk()
    ensures rows == Rows(mux)
  {
    hide Mux.TracksOk, RowOf;
    rows := [];
    for i := 0 to |mux.tracks|
      invariant |rows| == i && forall j :: 0 <= j < i ==> rows[j] == RowOf(mux.tracks[j], mux.byHandle)
    {
      var row := BuildRow(mux, mux.tracks[i]);
      rows := rows + [row];
    }
  }

  /** The configuration of every track that has samples can be written. */
  ghost predicate AllDescribed(mux: Mux)
    reads mux`byHandle, mux.byHandle`samples, mux.byHandle`config
  {
    forall h :: 0 <= h < |mux.byHandle| ==>
      mux.byHandle[h].samples == [] || Describable(mux.byHandle[h].info.kind, mux.byHandle[h].config)
  }

  lemma DescribedRows(mux: Mux)
    requires mux.TracksOk()
    ensures AllDescribable(Rows(mux)) <==> AllDescribed(mux)
  {
    hide Track.Valid, Mux.TracksOk, Describable;
    mux.SameTracks();
    if AllDescribable(Rows(mux)) {
      forall h | 0 <= h < |mux.byHandle|
        ensures mux.byHandle[h].samples == [] || Describable(mux.byHandle[h].info.kind, mux.byHandle[h].config)
      {
        assert mux.byHandle[h] in mux.tracks;
        var i :| 0 <= i < |mux.tracks| && mux.tracks[i] == mux.byHandle[h];
        assert Rows(mux)[i] == RowOf(mux.tracks[i], mux.byHandle);
      }
    }
    if AllDescribed(mux) {
      forall i | 0 <= i < |mux.tracks|
        ensures var s := Rows(mux)[i].state; s.samples == [] || Describable(s.info.kind, s.config)
      {
        assert mux.tracks[i] == mux.byHandle[mux.tracks[i].handle - 1];
      }
    }
  }

  // ---------- the movie box ----------

  lemma OverwriteSlices(c: seq<byte>, at: nat, b: seq<byte>, d: seq<byte>, from: nat, to: nat)
    requires d == Overwrite(c, at, b) && from <= to <= |c| && (to <= at || at + |b| <= from)
    ensures |c| <= |d| && d[from..to] == c[from..to]
    ensures at + |b| <= |c| ==> |d| == |c| && d[at..at + |b|] == b
    ensures KeptOutside(c, d, at, at + |b|)
  {
  }

  /** Writing inside the reserved area keeps the brands and the size of the media data. */
  lemma HeadedKept(c: seq<byte>, d: seq<byte>, base: nat, at: nat, b: seq<byte>)
    requires Headed(c, base, |c|) && d == Overwrite(c, at, b) && 32 <= at && at + |b| <= base
    ensures Headed(d, base, |d|) && |d| == |c| && d[at..at + |b|] == b && d[base + 16..] == c[base + 16..]
    ensures KeptOutside(c, d, 32, base + 16)
  {
    hide WordBytes, MdatWords, Overwrite;
    OverwriteSlices(c, at, b, d, 0, 32);
    OverwriteSlices(c, at, b, d, base, base + 16);
    OverwriteSlices(c, at, b, d, base + 16, |c|);
    assert d[..32] == d[0..32] && c[..32] == c[0..32];
  }

  lemma TwoWords(x: u32, y: u32)
    ensures |WordBytes([x, y])| == 8
  {
  }

  /** The movie box fits the reserved area: it goes there, with a free box after it if one fits. */
  method PlaceMoov(mux: Mux, bytes: seq<byte>, ghost moov: Box, ghost high: nat) returns (ok: bool, free: bool)
    requires mux.DataSafe(high) && Headed(mux.file.content, mux.Base(), |mux.file.content|)
    requires Bounded(moov) && bytes == BoxBytes(moov) && 32 + |bytes| <= mux.Base() < TWO32
    modifies mux.file
    ensures mux.DataSafe(high)
    ensures old(mux.file.grants) == [] ==> ok && mux.file.grants == []
    ensures ok ==> |mux.file.content| == |old(mux.file.content)| && mux.file.content[mux.Base() + 16..] == old(mux.file.content)[mux.Base() + 16..]
    ensures ok ==>
              var pad := mux.Base() - 32 - |bytes|;
              && (old(mux.file.grants) == [] ==> (free <==> pad >= 8))
              && (0 < pad < 8 ==> !free && mux.file.content[32 + |bytes|..mux.Base()] == old(mux.file.content)[32 + |bytes|..mux.Base()])
              && (free || pad == 0 ==>
                    var bs := InPlace(moov, mux.file.content[32 + |bytes|..mux.Base()], mux.file.content[mux.Base() + 16..]);
                    AllBounded(bs) && mux.file.content == AllBytes(bs))
  {
    hide Mux.DataSafe, WordBytes, MdatWords, BoxBytes, InPlace, AllBytes, Bounded, Headed, KeptOutside;
    var base, n := mux.Base(), 32 + |bytes|;
    FileIsValid(mux, high);
    ok := WriteReserved(mux, bytes, high);
    if !ok { return false, false; }
    free := FillReserved(mux, n, bytes, high);
    ghost var c := mux.file.content;
    if free || n == base {
      InPlaceTiles(c, base, moov);
    }
    return true, free;
  }

  /** The bytes of the movie box, at the start of the reserved area. */
  method WriteReserved(mux: Mux, bytes: seq<byte>, ghost high: nat) returns (ok: bool)
    requires mux.DataSafe(high) && Headed(mux.file.content, mux.Base(), |mux.file.content|) && 32 + |bytes| <= mux.Base()
    modifies mux.file
    ensures mux.DataSafe(high)
    ensures old(mux.file.grants) == [] ==> ok && mux.file.grants == []
    ensures ok ==>
              var c0, c, n := old(mux.file.content), mux.file.content, 32 + |bytes|;
              && |c| == |c0| && Headed(c, mux.Base(), |c|) && c[32..n] == bytes && mux.file.pos == n
              && c[n..mux.Base()] == c0[n..mux.Base()] && c[mux.Base() + 16..] == c0[mux.Base() + 16..]
  {
    hide Mux.DataSafe, Overwrite, WordBytes, MdatWords, Headed, KeptOutside;
    var base := mux.Base();
    FileIsValid(mux, high);
    mux.file.SeekTo(32);
    var took := mux.file.Write(bytes);
    ghost var c0, c1 := old(mux.file.content), mux.file.content;
    HeadedKept(c0, c1, base, 32, bytes[..took]);
    HeaderWritten(mux, high);
    if took != |bytes| { return false; }
    assert bytes[..took] == bytes;
    OverwriteSlices(c0, 32, bytes, c1, 32 + |bytes|, base);
    return true;
  }

  /** The free box after it; its failure is not noticed by the sync. */
  method FillReserved(mux: Mux, n: nat, bytes: seq<byte>, ghost high: nat) returns (free: bool)
    requires mux.DataSafe(high) && Headed(mux.file.content, mux.Base(), |mux.file.content|) && mux.Base() < TWO32
    requires n == 32 + |bytes| <= mux.Base() && mux.file.pos == n && mux.file.content[32..n] == bytes
    modifies mux.file
    ensures mux.DataSafe(high) && |mux.file.content| == |old(mux.file.content)|
    ensures old(mux.file.grants) == [] ==> mux.file.grants == [] && (free <==> mux.Base() - n >= 8)
    ensures mux.file.content[mux.Base() + 16..] == old(mux.file.content)[mux.Base() + 16..]
    ensures mux.Base() - n < 8 ==> !free && mux.file.content == old(mux.file.content)
    ensures free || n == mux.Base() ==>
              Headed(mux.file.content, mux.Base(), |mux.file.content|) && mux.file.content[32..n] == bytes && Padded(mux.file.content, n, mux.Base())
  {
    hide Mux.DataSafe, Overwrite, WordBytes, MdatWords, Headed, KeptOutside;
    var base := mux.Base();
    FileIsValid(mux, high);
    ghost var c1 := mux.file.content;
    free := mux.file.WriteFree(base - n, base - |bytes|);
    ghost var c2 := mux.file.content;
    TwoWords(base - n, FREE);
    HeadedLength(c1, base);
    if free {
      HeadedKept(c1, c2, base, n, WordBytes([base - n, FREE]));
      OverwriteSlices(c1, n, WordBytes([base - n, FREE]), c2, 32, n);
    }
    FreeKept(c1, c2, base, n);
    SliceKept(c1, c2, n, n + 8, base + 16, |c1|);
    HeaderWritten(mux, high);
  }

  lemma HeadedLength(c: seq<byte>, base: nat)
    requires Headed(c, base, |c|)
    ensures base + 16 <= |c|
  {
  }

  lemma FreeKept(c: seq<byte>, d: seq<byte>, base: nat, n: nat)
    requires KeptOutside(c, d, n, n + 8) && 32 <= n <= base
    ensures n + 8 <= base + 16 ==> KeptOutside(c, d, 32, base + 16)
  {
  }

  lemma FileIsValid(mux: Mux, high: nat)
    requires mux.DataSafe(high)
    ensures mux.file.Valid() && 40 <= mux.Base() && mux.Base() + 16 <= high <= |mux.file.content| < TWO63
  {
  }

  const INT_MAX: int := 0x7FFF_FFFF

  /** The size a buffer must have for the writers to fit, or to give up. */
  ghost function Extent(moov: Box): nat
    requires Bounded(moov)
  {
    if Refusal(moov).Some? then Refusal(moov).value else |BoxBytes(moov)|
  }

  /** The size of the first buffer that is large enough, from this one on. */
  function LargeEnough(size: nat, base: nat, n: nat): (r: nat)
    requires base > 0
    ensures n <= r && (r == size || r < n + base)
    decreases n + base - size
  {
    if n <= size then size else LargeEnough(size + base, base, n)
  }

  /**
     The movie box in a buffer of twice, three times, ... the size of the reserved
     area, until it fits or its writer gives up. `next` is the size the loop would have
     tried next.
   */
  method SerialiseGrowing(moov: Box, base: nat) returns (bytes: Option<seq<byte>>, next: nat)
    requires Bounded(moov) && base > 0
    ensures bytes == if Refusal(moov).Some? then None else Some(BoxBytes(moov))
    ensures bytes.Some? ==> next == LargeEnough(2 * base, base, |bytes.value|) + base
  {
    hide BoxBytes, Bounded, Refusal;
    var size := 2 * base;
    var buf := new TablesBuffer(size);
    var w := BoxWriter.WriteBox(buf, moov, size);
    next := 3 * base;
    while w.NoSpace?
      invariant size == next - base && fresh(buf) && fresh(buf.buf) && buf.offset <= buf.buf.Length
      invariant w == TreeResult(Refusal(moov), 0, |BoxBytes(moov)|, size)
      invariant w.Wrote? ==> buf.Content() == BoxBytes(moov)
      invariant w.NoSpace? ==> size < Extent(moov)
      invariant LargeEnough(size, base, Extent(moov)) == LargeEnough(2 * base, base, Extent(moov))
      decreases Extent(moov) + base - size
    {
      size := size + base;
      buf := new TablesBuffer(size);
      w := BoxWriter.WriteBox(buf, moov, size);
      next := next + base;
    }
    bytes := if w.Wrote? then Some(buf.buf[..buf.offset]) else None;
  }

  lemma TwoWrites(c: seq<byte>, at: nat, x: u32, y: u32)
    ensures Overwrite(Overwrite(c, at, WordBytes([x])), at + 4, WordBytes([y])) == Overwrite(c, at, WordBytes([x, y]))
    ensures |WordBytes([x])| == 4 && |WordBytes([y])| == 4 && |WordBytes([x, y])| == 8
  {
    hide Overwrite, WordBytes;
    OverwriteTwice(c, at, WordBytes([x]), WordBytes([y]));
    WordBytesAppend([x], [y]);
    assert [x] + [y] == [x, y];
  }

  /** The movie box at the end of the file, and a free box over the whole reserved area. */
  method AppendMoov(mux: Mux, bytes: seq<byte>, ghost moov: Box, ghost high: nat) returns (ok: bool)
    requires mux.DataSafe(high) && Headed(mux.file.content, mux.Base(), |mux.file.content|) && mux.Base() < TWO32
    requires Bounded(moov) && bytes == BoxBytes(moov)
    modifies mux.file
    ensures mux.DataSafe(high)
    ensures old(mux.file.grants) == [] ==> mux.file.grants == [] && (ok <==> |old(mux.file.content)| + |bytes| <= FILE_MAX)
    ensures ok ==>
              var c, end := mux.file.content, |old(mux.file.content)|;
              && end <= |c| && c[mux.Base() + 16..end] == old(mux.file.content)[mux.Base() + 16..]
              && var bs := AtEnd(c[32..mux.Base()], c[mux.Base() + 16..end], moov);
                 AllBounded(bs) && c == AllBytes(bs)
  {
    hide Mux.DataSafe, Overwrite, WordBytes, MdatWords, BoxBytes, AtEnd, AllBytes, Bounded, Headed, KeptOutside;
    var base := mux.Base();
    FileIsValid(mux, high);
    ghost var c0 := mux.file.content;
    ok := WriteGap(mux);
    ghost var c2 := mux.file.content;
    HeaderWritten(mux, high);
    if !ok { return; }
    TwoWords(base - 32, FREE);
    HeadedKept(c0, c2, base, 32, WordBytes([base - 32, FREE]));
    var end := mux.file.SeekEnd();
    label Gap:
    var took := mux.file.Write(bytes);
    ghost var c3 := mux.file.content;
    AppendedAt(c2, bytes[..took], c3, high);
    mux.AppendedDataSafe@Gap(high);
    if took != |bytes| { return false; }
    assert bytes[..took] == bytes;
    HeadedAppended(c2, c3, base, bytes);
    OverwriteSlices(c2, end, bytes, c3, 32, 40);
    OverwriteSlices(c2, end, bytes, c3, base + 16, end);
    AtEndTiles(c3, base, end, moov);
    return true;
  }

  /** The header of the free box, in two writes. */
  method WriteGap(mux: Mux) returns (ok: bool)
    requires mux.file.Valid() && 40 <= mux.Base() < TWO32 && mux.Base() <= |mux.file.content|
    modifies mux.file
    ensures old(mux.file.grants) == [] ==> ok && mux.file.grants == []
    ensures mux.file.Valid() && KeptOutside(old(mux.file.content), mux.file.content, 32, mux.Base() + 16)
    ensures ok ==> mux.file.content == Overwrite(old(mux.file.content), 32, WordBytes([mux.Base() - 32, FREE]))
  {
    hide Overwrite, WordBytes;
    var base := mux.Base();
    TwoWrites(mux.file.content, 32, base - 32, FREE);
    mux.file.SeekTo(32);
    ok := mux.file.WriteWords([base - 32]);
    if !ok { return; }
    ok := mux.file.WriteWords([FREE]);
  }

  lemma AppendedAt(c: seq<byte>, b: seq<byte>, d: seq<byte>, high: nat)
    requires d == Overwrite(c, |c|, b) && high <= |c|
    ensures KeptOutside(c, d, high, |d|)
  {
  }

  lemma HeadedAppended(c: seq<byte>, d: seq<byte>, base: nat, b: seq<byte>)
    requires Headed(c, base, |c|) && d == Overwrite(c, |c|, b) && |d| < TWO63
    ensures Headed(d, base, |c|) && d[|c|..] == b
  {
    hide WordBytes, MdatWords, Overwrite;
    OverwriteSlices(c, |c|, b, d, 0, 32);
    OverwriteSlices(c, |c|, b, d, base, base + 16);
    assert d[..32] == d[0..32] && c[..32] == c[0..32];
    AppendedTail(c, b, d);
  }

  lemma AppendedTail(c: seq<byte>, b: seq<byte>, d: seq<byte>)
    requires d == Overwrite(c, |c|, b)
    ensures |d| == |c| + |b| && d[|c|..] == b
  {
  }

  // ---------- the whole sync ----------

  /** Where the movie box ends up, and the boxes the file then consists of. */
  function Layout(base: nat, c: seq<byte>, data: seq<byte>, moov: Box): seq<Box>
    requires Bounded(moov) && 40 <= base <= |c|
  {
    var n := 32 + |BoxBytes(moov)|;
    if n <= base then InPlace(moov, c[n..base], data) else AtEnd(c[32..base], data, moov)
  }

  /** The top-level boxes tile the file, and the media data box holds these bytes. */
  ghost predicate Tiled(base: nat, c: seq<byte>, data: seq<byte>, moov: Box)
  {
    && Bounded(moov) && 40 <= base && base + 16 + |data| <= |c|
    && AllBounded(Layout(base, c, data, moov)) && c == AllBytes(Layout(base, c, data, moov))
  }

  /** The first attempt, in a buffer of the size of the reserved area. */
  ghost function FirstAttempt(moov: Box, base: nat): WriteResult
    requires Bounded(moov) && base >= 32
  {
    TreeResult(Refusal(moov), 0, |BoxBytes(moov)|, base - 32)
  }

  /** Whether a movie box of this size may go to the end of a file of this size. */
  predicate RoomAtEnd(size: nat, base: nat, n: nat)
    requires base > 0
  {
    LargeEnough(2 * base, base, n) + base < INT_MAX && size + n <= FILE_MAX
  }

  /** What becomes of the movie box on a device that takes every byte. */
  ghost predicate Placed(moov: Box, base: nat, size: nat, allow: bool, r: SyncResult, tiled: bool)
    requires Bounded(moov) && base >= 32
  {
    match FirstAttempt(moov, base)
    case Wrote(n) => r.Written? && (tiled <==> n == base - 32 || 8 <= base - 32 - n)
    case Invalid => r.Unwritten?
    case NoSpace =>
      && (!allow ==> r.NoBuffer?)
      && (allow && Refusal(moov).Some? ==> r.Failed?)
      && (allow && Refusal(moov).None? ==> if RoomAtEnd(size, base, |BoxBytes(moov)|) then r.Written? && tiled else r.Failed?)
  }

  /**
     Writes the movie box where it fits: in the reserved area, or, when the file is
     being closed, at its end. A gap of one to seven bytes after it cannot be filled. If
     its writer gives up before it runs out of room, nothing is written and the sync
     still reports success.
  */
  method WriteMoov(mux: Mux, moov: Box, allow: bool, ghost high: nat) returns (r: SyncResult, tiled: bool)
    requires mux.DataSafe(high) && Headed(mux.file.content, mux.Base(), |mux.file.content|)
    requires Bounded(moov) && 40 <= mux.Base() < TWO32
    modifies mux.file, mux`maxReached
    ensures mux.DataSafe(high) && !r.Skipped?
    ensures r.NoBuffer? <==> !allow && FirstAttempt(moov, mux.Base()).NoSpace?
    ensures r.Unwritten? <==> FirstAttempt(moov, mux.Base()).Invalid?
    ensures r.Unwritten? ==> unchanged(mux.file)
    ensures mux.maxReached == (old(mux.maxReached) || r.NoBuffer?)
    ensures r.Written? ==> Refusal(moov).None? && |BoxBytes(moov)| < TWO32
    ensures r.Written? && tiled ==>
              Tiled(mux.Base(), mux.file.content, old(mux.file.content)[mux.Base() + 16..], moov)
    ensures old(mux.file.grants) == [] ==> mux.file.grants == [] && Placed(moov, mux.Base(), |old(mux.file.content)|, allow, r, tiled)
  {
    hide Mux.DataSafe, BoxBytes, AllBytes, InPlace, AtEnd, Bounded, AllBounded, Headed, Refusal;
    var base := mux.Base();
    FileIsValid(mux, high);
    var buf := new TablesBuffer(base);
    var w := BoxWriter.WriteBox(buf, moov, base - 32);
    if w.Wrote? {
      var ok, filled := PlaceMoov(mux, buf.buf[..buf.offset], moov, high);
      return if ok then Written else Failed, ok && (filled || buf.offset == base - 32);
    } else if w.Invalid? {
      return Unwritten, false;
    } else if allow {
      var bytes, next := SerialiseGrowing(moov, base);
      if bytes.None? || next >= INT_MAX { return Failed, false; }
      var ok := AppendMoov(mux, bytes.value, moov, high);
      return if ok then Written else Failed, ok;
    } else {
      mux.maxReached := true;
      return NoBuffer, false;
    }
  }

  /** What a sync of the tables does to the tracks: a new order, new numbers, new times. */
  twostate predicate Refreshed(mux: Mux)
    reads mux`byHandle, mux`tracks, mux.byHandle, mux.tracks
  {
    && mux.byHandle == old(mux.byHandle) && mux.tracks == Sorted(old(mux.tracks)) && Numbered(mux.tracks)
    && forall h :: 0 <= h < |mux.byHandle| ==> Retimed(mux.byHandle[h], mux.timescale)
  }

  /** The same, from the order and the states there were. */
  ghost predicate RefreshedFrom(mux: Mux, ts: seq<Track>, states: seq<R.TrackState>)
    reads mux`byHandle, mux`tracks, mux.byHandle, mux.tracks
  {
    && |states| == |mux.byHandle| && mux.tracks == Sorted(ts) && Numbered(mux.tracks)
    && forall h :: 0 <= h < |mux.byHandle| ==>
         && mux.byHandle[h].State() == states[h].(times := Entries(DtsOf(states[h].samples)))
         && Lasting(mux.byHandle[h], mux.timescale)
  }

  /** The tracks of the journal are all there is, or the journal is not used any more. */
  ghost predicate Sortable(mux: Mux)
    reads mux
  {
    mux.journal != null && mux.intact && !mux.ended ==> |mux.log.tracks| == |mux.tracks|
  }

  /** Tables within what 32-bit box sizes can say. */
  ghost predicate WithinLimits(mux: Mux)
    reads mux`byHandle, mux.byHandle
  {
    forall h :: 0 <= h < |mux.byHandle| ==>
      |mux.byHandle[h].samples| <= MAX_ENTRY_COUNT && |mux.byHandle[h].syncs| <= MAX_ENTRY_COUNT
  }

  lemma TrackWritable(t: Track)
    requires t.Valid() && t.times == Entries(DtsOf(t.samples)) && |t.samples| <= MAX_ENTRY_COUNT && |t.syncs| <= MAX_ENTRY_COUNT
    ensures (t.samples == [] || TablesWritable(t.State())) && t.info.timescale > 0
  {
    hide R.GoodMetas, R.GoodInfo, R.InRange, Entries, SyncsWithin;
    TrackTimescale(t);
    EntriesShort(DtsOf(t.samples));
  }

  lemma AllTracksWritable(mux: Mux, ts: seq<Track>, states: seq<R.TrackState>)
    requires mux.TracksOk() && WithinLimits(mux) && RefreshedFrom(mux, ts, states)
    ensures AllWritable(Rows(mux)) && Timescaled(Rows(mux))
  {
    hide Track.Valid, Mux.TracksOk, TablesWritable, Entries, Sorted, Lasting;
    mux.SameTracks();
    forall i | 0 <= i < |mux.tracks|
      ensures var s := Rows(mux)[i].state; (s.samples == [] || TablesWritable(s)) && s.info.timescale > 0
    {
      mux.TrackSyncable(i);
      var t := mux.tracks[i];
      assert t == mux.byHandle[t.handle - 1];
      assert t.State().times == Entries(DtsOf(t.samples));
      TrackWritable(t);
    }
  }

  lemma RaiseHigh(mux: Mux, high: nat, high': nat)
    requires mux.DataSafe(high) && high <= high' <= |mux.file.content|
    ensures mux.DataSafe(high')
  {
    hide Stored, Growing, Apart;
    forall h | 0 <= h < |mux.byHandle|
      ensures Stored(mux.file.content, mux.byHandle[h].samples, mux.byHandle[h].payloads, mux.Base() + 16, high')
    {
      StoredMore(mux.file.content, mux.byHandle[h].samples, mux.byHandle[h].payloads, mux.Base() + 16, high, high');
    }
  }

  /** The samples are where they were, whatever the order and the times. */
  twostate lemma RefreshedDataSafe(mux: Mux, new high: nat)
    requires old(mux.DataSafe(high)) && Refreshed(mux) && mux.file.content == old(mux.file.content)
    ensures mux.DataSafe(high)
  {
    hide Mux.DataSafe, Stored, Growing, Apart, Entries, Sorted, Numbered;
    forall h | 0 <= h < |mux.byHandle|
      ensures mux.byHandle[h].samples == old(mux.byHandle[h].samples) && mux.byHandle[h].payloads == old(mux.byHandle[h].payloads)
    {
      assert Retimed(mux.byHandle[h], mux.timescale);
    }
    RefreshedSafe(mux, high);
  }

  twostate lemma RefreshedSafe(mux: Mux, new high: nat)
    requires old(mux.DataSafe(high)) && mux.byHandle == old(mux.byHandle) && mux.file.content == old(mux.file.content)
    requires forall h :: 0 <= h < |mux.byHandle| ==>
               mux.byHandle[h].samples == old(mux.byHandle[h].samples) && mux.byHandle[h].payloads == old(mux.byHandle[h].payloads)
    ensures mux.DataSafe(high)
  {
    HeaderWritten(mux, high);
  }

  /** The order of the tracks, their numbers and their times. */
  method Refresh(mux: Mux, ghost high: nat)
    requires mux.TracksOk() && mux.LogOk() && Sortable(mux) && mux.DataSafe(high)
    modifies mux`tracks, mux.tracks`id, mux.tracks`times, mux.tracks`duration, mux.tracks`durationMoov, mux.tracks`timed
    ensures mux.TracksOk() && mux.LogOk() && mux.DataSafe(high)
    ensures RefreshedFrom(mux, old(mux.tracks), old(Mux.States(mux.byHandle)))
    ensures |mux.tracks| == |old(mux.tracks)|
  {
    hide Track.Valid, Mux.TracksOk, Mux.LogOk, Mux.DataSafe, Entries, Sorted, Track.State, Numbered;
    Resort(mux);
    ResortedLogOk(mux);
    label Resorted:
    RetimeAll(mux);
    RetimedLogOk@Resorted(mux);
    RefreshedDataSafe(mux, high);
    RefreshedStates(mux);
  }

  twostate lemma RefreshedStates(mux: Mux)
    requires Refreshed(mux)
    ensures RefreshedFrom(mux, old(mux.tracks), old(Mux.States(mux.byHandle)))
  {
    hide Entries, Sorted, Numbered;
    forall h | 0 <= h < |mux.byHandle|
      ensures mux.byHandle[h].State() == old(Mux.States(mux.byHandle))[h].(times := Entries(DtsOf(old(Mux.States(mux.byHandle))[h].samples)))
      ensures Lasting(mux.byHandle[h], mux.timescale)
    {
      assert Retimed(mux.byHandle[h], mux.timescale);
    }
  }

  /** The file after a sync that wrote the movie box `moov`; the media data is the bytes `data`. */
  ghost predicate Finished(mux: Mux, fixed: Fixed, data: seq<byte>, moov: Box, tiled: bool)
    reads mux, mux.byHandle, mux.tracks, mux.file`content
  {
    && RefsResolve(mux) && AllDescribed(mux)
    && moov == Moov(Rows(mux), mux.timescale, mux.metas, mux.cover, fixed) && Bounded(moov) && |BoxBytes(moov)| < TWO32
    && (tiled ==> Tiled(mux.Base(), mux.file.content, data, moov))
  }

  /**
     What a sync makes of a file of this size on a device that takes every byte. If a
     reference does not resolve, it fails. Otherwise it tries to write the movie box of
     the tracks, whose writers give up exactly when the configuration of some track with
     samples cannot be written: what becomes of it follows from its size alone.
  */
  ghost predicate AsIntended(mux: Mux, fixed: Fixed, size: nat, allow: bool, r: SyncResult, moov: Box, tiled: bool)
    reads mux, mux.byHandle, mux.tracks
  {
    && (!RefsResolve(mux) ==> r.Failed?)
    && (RefsResolve(mux) ==>
          && moov == Moov(Rows(mux), mux.timescale, mux.metas, mux.cover, fixed) && Bounded(moov) && mux.Base() >= 32
          && (AllDescribed(mux) <==> Refusal(moov).None?)
          && Placed(moov, mux.Base(), size, allow, r, tiled))
  }

  lemma RefusedCons(b: Box, bs: seq<Box>)
    requires Bounded(b) && Refusal(b).None? && AllBounded(bs) && RefusalAll(bs).Some?
    ensures AllBounded([b] + bs) && RefusalAll([b] + bs) == Some(|BoxBytes(b)| + RefusalAll(bs).value)
  {
    hide BoxBytes, Bounded, Refusal, AllBytes, RefusalAll;
    RefusalOne(b);
    AllBytesOne(b);
    RefusalAppend([b], bs);
  }

  /** The writer that gives up comes first. */
  lemma RefusedFirst(b: Box, bs: seq<Box>)
    requires Bounded(b) && Refusal(b).Some? && AllBounded(bs)
    ensures AllBounded([b] + bs) && RefusalAll([b] + bs) == Refusal(b)
  {
    hide BoxBytes, Bounded, Refusal, RefusalAll;
    RefusalOne(b);
    RefusalAppend([b], bs);
  }

  lemma RefusedContainer(kind: u32, cs: seq<Box>)
    requires AllBounded(cs) && RefusalAll(cs).Some?
    ensures Bounded(Container(kind, cs)) && Refusal(Container(kind, cs)) == Some(8 + RefusalAll(cs).value)
  {
  }

  /** How long the boxes before the sample description of an audio track are. */
  lemma AudioBoxLengths(r: TrackRow)
    requires r.state.info.kind.Audio?
    ensures Bounded(Header(TkhdOf(r))) && Bounded(Header(MdhdOf(r))) && Bounded(Header(HdlrOf(r))) && Bounded(Dinf()) && Bounded(MediaBox(r.state.info.kind))
    ensures |BoxBytes(Header(TkhdOf(r)))| == 104 && |BoxBytes(Header(MdhdOf(r)))| == 44 && |BoxBytes(Header(HdlrOf(r)))| < 33 + NAME_LIMIT
    ensures |BoxBytes(MediaBox(r.state.info.kind))| == 16 && |BoxBytes(Dinf())| == 36
    ensures Refusal(Header(TkhdOf(r))).None? && Refusal(Header(MdhdOf(r))).None? && Refusal(Header(HdlrOf(r))).None?
    ensures Refusal(Dinf()).None? && Refusal(MediaBox(r.state.info.kind)).None?
  {
    hide BE32, WordBytes, TkhdWords, MdhdWords, HdlrWords, HandlerName;
    var dref := Opaque(DREF, WordBytes(DREF_WORDS));
    AllBytesOne(dref);
    RefusalOne(dref);
  }

  /** A sample description of an audio track that was never configured. */
  lemma UnconfiguredStbl(r: TrackRow, info: Info)
    requires r.state.info.kind.Audio? && r.state.config == R.InitialConfig(J.Audio) && TablesWritable(r.state)
    ensures Bounded(Stbl(r, info)) && Refusal(Stbl(r, info)) == Some(60)
  {
    hide BoxBytes, TableBoxes, EsSize;
    var stsd := Header(StsdOf(r, info));
    TablesNotRefused(r.state);
    assert !Describable(J.Audio, r.state.config) && Refusal(stsd) == Some(52);
    RefusedFirst(stsd, TableBoxes(r.state));
    RefusedContainer(STBL, [stsd] + TableBoxes(r.state));
  }

  /**
     An audio track with a sample, without references, and without the configuration
     nobody had to set: the first attempt at its movie box ends within the reserved
     area, whatever metadata comes after it, so that the sync reports success without
     writing it.
  */
  lemma UnconfiguredAudio(r: TrackRow, timescale: u32, ms: seq<M.Meta>, c: T.CoverArt, fixed: Fixed, base: nat)
    requires r.state.info.kind.Audio? && r.state.config == R.InitialConfig(J.Audio) && r.state.refs == [] && r.refIds == []
    requires r.state.samples != [] && TablesWritable(r.state) && base >= 1000
    ensures Bounded(Moov([r], timescale, ms, c, fixed)) && FirstAttempt(Moov([r], timescale, ms, c, fixed), base).Invalid?
  {
    hide BoxBytes, Bounded, Refusal, RefusalAll, AllBounded, TablesWritable, MediaBox, Dinf, T.MetaBoxes;
    var info, more, last := fixed.infos(r.state.handle), T.MetaBoxes(r.state.metas, T.NO_COVER), T.MetaBoxes(ms, c);
    AudioBoxLengths(r);
    UnconfiguredStbl(r, info);
    RefusalOne(Stbl(r, info));
    RefusedCons(Dinf(), [Stbl(r, info)]);
    RefusedCons(MediaBox(r.state.info.kind), [Dinf()] + [Stbl(r, info)]);
    RefusedContainer(MINF, Minf(r, info).children);
    RefusalOne(Minf(r, info));
    RefusedCons(Header(HdlrOf(r)), [Minf(r, info)]);
    RefusedCons(Header(MdhdOf(r)), [Header(HdlrOf(r))] + [Minf(r, info)]);
    RefusedContainer(MDIA, Mdia(r, info).children);
    T.MetaBoxesSturdy(r.state.metas, T.NO_COVER);
    RefusedFirst(Mdia(r, info), more);
    assert RefBoxes(r) + ([Mdia(r, info)] + more) == [Mdia(r, info)] + more;
    RefusedCons(Header(TkhdOf(r)), [Mdia(r, info)] + more);
    RefusedContainer(TRAK, TrakBox(r, info).children);
    T.MetaBoxesSturdy(ms, c);
    assert [r][1..] == [] && Traks([r], fixed.infos) == [TrakBox(r, info)] + [];
    assert Traks([r], fixed.infos) + last == [TrakBox(r, info)] + last;
    RefusedFirst(TrakBox(r, info), last);
    MovieHeaderLength([r], timescale, fixed);
    RefusedCons(Header(MvhdOf([r], timescale, fixed)), Traks([r], fixed.infos) + last);
    RefusedContainer(MOOV, Moov([r], timescale, ms, c, fixed).children);
  }

  lemma MovieHeaderLength(rows: seq<TrackRow>, timescale: u32, fixed: Fixed)
    ensures var b := Header(MvhdOf(rows, timescale, fixed)); Bounded(b) && Refusal(b).None? && |BoxBytes(b)| == 120
  {
    hide BE32, WordBytes, MvhdWords;
  }

  /** The movie box of tracks that are in order, if their references resolve. */
  method MakeMoov(mux: Mux, fixed: Fixed) returns (box: Option<Box>)
    requires mux.TracksOk() && AllWritable(Rows(mux))
    ensures box.Some? <==> RefsResolve(mux)
    ensures box.Some? ==>
              && box.value == Moov(Rows(mux), mux.timescale, mux.metas, mux.cover, fixed) && Bounded(box.value)
              && (AllDescribed(mux) <==> Refusal(box.value).None?)
  {
    hide Mux.TracksOk, Bounded, Rows, Moov, AllWritable, RefsResolve, AllDescribed, Refusal, AllDescribable;
    var ok := CheckRefs(mux);
    if !ok { return None; }
    var rows := BuildRows(mux);
    MoovRefusal(rows, mux.timescale, mux.metas, mux.cover, fixed);
    DescribedRows(mux);
    return Some(Moov(rows, mux.timescale, mux.metas, mux.cover, fixed));
  }

  lemma AttemptFits(moov: Box, base: nat)
    requires Bounded(moov) && base >= 32
    ensures FirstAttempt(moov, base).Invalid? ==> Refusal(moov).Some?
  {
    hide Bounded, BoxBytes, Refusal;
  }

  method PutMoov(mux: Mux, fixed: Fixed, allow: bool, ghost high: nat) returns (r: SyncResult, ghost moov: Box, tiled: bool)
    requires mux.TracksOk() && mux.DataSafe(high) && AllWritable(Rows(mux)) && mux.Base() < TWO32
    requires Headed(mux.file.content, mux.Base(), |mux.file.content|)
    modifies mux`maxReached, mux.file
    ensures mux.DataSafe(high) && !r.Skipped? && 40 <= mux.Base()
    ensures mux.maxReached == (old(mux.maxReached) || r.NoBuffer?)
    ensures mux.Base() + 16 <= |old(mux.file.content)|
    ensures r.Written? ==> Finished(mux, fixed, old(mux.file.content)[mux.Base() + 16..], moov, tiled)
    ensures r.Unwritten? ==> RefsResolve(mux) && !AllDescribed(mux) && unchanged(mux.file)
    ensures r.NoBuffer? ==> !allow
    ensures old(mux.file.grants) == [] ==> mux.file.grants == [] && AsIntended(mux, fixed, |old(mux.file.content)|, allow, r, moov, tiled)
  {
    hide Mux.TracksOk, Mux.DataSafe, Tiled, Headed, BoxBytes, Bounded, Rows;
    hide Moov, AllWritable, RefsResolve, AllDescribed, Refusal, Placed, FirstAttempt;
    moov, tiled := Opaque(FREE, []), false;
    FileIsValid(mux, high);
    var box := MakeMoov(mux, fixed);
    if box.None? { return Failed, moov, tiled; }
    AttemptFits(box.value, mux.Base());
    r, tiled := WriteMoov(mux, box.value, allow, high);
    moov := box.value;
  }

  /** The tracks, and the movie box. */
  method WriteTables(mux: Mux, fixed: Fixed, allow: bool, ghost high: nat) returns (r: SyncResult, ghost moov: Box, tiled: bool)
    requires mux.TracksOk() && mux.DataSafe(high) && mux.LogOk() && WithinLimits(mux) && Sortable(mux) && mux.Base() < TWO32
    requires Headed(mux.file.content, mux.Base(), |mux.file.content|)
    modifies mux`tracks, mux`maxReached, mux.file
    modifies mux.tracks`id, mux.tracks`times, mux.tracks`duration, mux.tracks`durationMoov, mux.tracks`timed
    ensures mux.TracksOk() && mux.DataSafe(high) && mux.LogOk() && |mux.tracks| == |old(mux.tracks)| && !r.Skipped?
    ensures RefreshedFrom(mux, old(mux.tracks), old(Mux.States(mux.byHandle)))
    ensures mux.maxReached == (old(mux.maxReached) || r.NoBuffer?)
    ensures mux.Base() + 16 <= |old(mux.file.content)|
    ensures r.Written? ==> Finished(mux, fixed, old(mux.file.content)[mux.Base() + 16..], moov, tiled)
    ensures r.Unwritten? ==> RefsResolve(mux) && !AllDescribed(mux) && unchanged(mux.file)
    ensures r.NoBuffer? ==> !allow
    ensures old(mux.file.grants) == [] ==> mux.file.grants == [] && AsIntended(mux, fixed, |old(mux.file.content)|, allow, r, moov, tiled)
  {
    hide Mux.TracksOk, Mux.DataSafe, Mux.LogOk, Sortable, Mux.States, Headed, Rows, Timescaled;
    hide AllWritable, RefsResolve, RefreshedFrom, AllDescribed, Finished, AsIntended, WithinLimits;
    Refresh(mux, high);
    StillWithin(mux);
    AllTracksWritable(mux, old(mux.tracks), old(Mux.States(mux.byHandle)));
    r, moov, tiled := PutMoov(mux, fixed, allow, high);
  }

  twostate lemma StillWithin(mux: Mux)
    requires old(WithinLimits(mux)) && RefreshedFrom(mux, old(mux.tracks), old(Mux.States(mux.byHandle))) && mux.byHandle == old(mux.byHandle)
    ensures WithinLimits(mux)
  {
    hide Entries, Sorted, Numbered, Lasting;
    forall h | 0 <= h < |mux.byHandle|
      ensures |mux.byHandle[h].samples| <= MAX_ENTRY_COUNT && |mux.byHandle[h].syncs| <= MAX_ENTRY_COUNT
    {
      assert old(|mux.byHandle[h].samples| <= MAX_ENTRY_COUNT && |mux.byHandle[h].syncs| <= MAX_ENTRY_COUNT);
      assert mux.byHandle[h].State() == old(Mux.States(mux.byHandle))[h].(times := Entries(DtsOf(old(Mux.States(mux.byHandle))[h].samples)));
    }
  }

  /** Valid, with the recorded samples in the file up to `high`, wherever the position is. */
  ghost predicate ValidUpTo(mux: Mux, high: nat)
    reads mux, mux.byHandle, mux.file, mux.journal
  {
    mux.TracksOk() && mux.MetasOk() && mux.DataSafe(high) && mux.JournalOk() && mux.LogOk() && mux.CoverOk() && mux.megabytes < 4096
  }

  lemma ValidAtPosition(mux: Mux)
    ensures mux.Valid() <==> ValidUpTo(mux, mux.file.pos)
  {
    hide Mux.TracksOk, Mux.DataSafe, Mux.MetasOk, Mux.JournalOk, Mux.LogOk;
  }

  /** Success was reported, though a track with samples has a configuration that cannot be written: only the size of the media data was. */
  twostate predicate NoMovieBox(mux: Mux)
    reads mux`byHandle, mux.byHandle, mux.file`content
  {
    && RefsResolve(mux) && !AllDescribed(mux)
    && KeptOutside(old(mux.file.content), mux.file.content, mux.Base(), mux.Base() + 16)
  }

  /**
     A sync of the tables to the media file. Whether it succeeds or not, no recorded
     sample is touched and the journal stays in step; when it succeeds and the gap
     after the movie box can be filled, the boxes tile the file.
  */
  method SyncInternal(mux: Mux, fixed: Fixed, allow: bool, ghost high: nat) returns (r: SyncResult, ghost moov: Box, tiled: bool)
    requires ValidUpTo(mux, high) && WithinLimits(mux) && Sortable(mux)
    modifies mux`tracks, mux`maxReached, mux.file
    modifies mux.tracks`id, mux.tracks`times, mux.tracks`duration, mux.tracks`durationMoov, mux.tracks`timed
    ensures ValidUpTo(mux, if r.Skipped? then high else mux.file.pos) && |mux.tracks| == |old(mux.tracks)|
    ensures r.Skipped? <==> old(mux.maxReached) && !allow
    ensures r.Skipped? ==> unchanged(mux) && unchanged(mux.file) && forall h :: 0 <= h < |mux.byHandle| ==> unchanged(mux.byHandle[h])
    ensures mux.maxReached == (old(mux.maxReached) || r.NoBuffer?)
    ensures r.NoBuffer? ==> !allow
    ensures mux.Base() + 16 <= |old(mux.file.content)|
    ensures r.Written? ==>
              && RefreshedFrom(mux, old(mux.tracks), old(Mux.States(mux.byHandle)))
              && Finished(mux, fixed, old(mux.file.content)[mux.Base() + 16..], moov, tiled)
    ensures r.Unwritten? ==> NoMovieBox(mux)
    ensures old(mux.file.grants) == [] ==> mux.file.grants == []
    ensures old(mux.file.grants) == [] && !r.Skipped? ==>
              && RefreshedFrom(mux, old(mux.tracks), old(Mux.States(mux.byHandle)))
              && AsIntended(mux, fixed, |old(mux.file.content)|, allow, r, moov, tiled)
  {
    hide Mux.TracksOk, Mux.DataSafe, Mux.MetasOk, Mux.JournalOk, Mux.LogOk, Sortable, WithinLimits;
    hide Tiled, Mux.States, Headed, Finished, RefreshedFrom, KeptOutside, Track.State, AsIntended, AllDescribed, RefsResolve;
    moov, tiled := Opaque(FREE, []), false;
    FileIsValid(mux, high);
    if mux.maxReached && !allow { return Skipped, moov, tiled; }
    var ok := WriteMdatHeader(mux, high);
    if ok {
      r, moov, tiled := WriteTables(mux, fixed, allow, high);
    } else {
      r := Failed;
    }
    FileIsValid(mux, high);
    var end := mux.file.SeekEnd();
    RaiseHigh(mux, high, end);
  }
}
