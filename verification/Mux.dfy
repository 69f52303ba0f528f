/**
 The muxer: its tracks, the media file they are written to, and the journal from
 which the tables can be rebuilt.
 */
module Mux {
  import opened Bytes
  import opened Wrappers
  import opened TimeTable
  import opened ChunkMap
  import opened Metadata
  import opened JournalFormat
  import opened JournalReplay
  import opened JournalSteps
  import opened JournalFile
  import opened JournalWriter
  import opened MuxTrack
  import BoxTree
  import opened MuxFile
  import opened DataSafety
  import opened TrackOrder

  datatype AddResult = Added | Einval | Enoent | Enospc

  function Flatten(buffers: seq<seq<byte>>): seq<byte>
  {
    if buffers == [] then [] else buffers[0] + Flatten(buffers[1..])
  }

  /** The file starts with its brands. */
  predicate Titled(c: seq<byte>)
  {
    |c| >= 32 && c[..32] == WordBytes(FTYP_WORDS)
  }

  lemma TitleKept(c: seq<byte>, d: seq<byte>, lo: int, hi: int)
    requires Titled(c) && KeptOutside(c, d, lo, hi) && 32 <= lo
    ensures Titled(d)
  {
    SliceKept(c, d, lo, hi, 0, 32);
  }

  /** `ts` lists the tracks of `bs`, whose handles count from 1, in some order. */
  ghost predicate Permuted(ts: seq<Track>, bs: seq<Track>)
  {
    && |ts| == |bs|
    && (forall i :: 0 <= i < |ts| ==> 1 <= ts[i].handle <= |bs| && ts[i] == bs[ts[i].handle - 1])
    && (forall h :: 0 <= h < |bs| ==> bs[h] in ts)
    && NoTwice(ts, [])
  }

  lemma PermutedTracks(ts: seq<Track>, bs: seq<Track>)
    requires multiset(ts) == multiset(bs) && forall h :: 0 <= h < |bs| ==> bs[h].handle == h + 1
    ensures Permuted(ts, bs)
  {
    assert |ts| == |multiset(ts)| == |bs|;
    forall i | 0 <= i < |ts| ensures 1 <= ts[i].handle <= |bs| && ts[i] == bs[ts[i].handle - 1] {
      assert ts[i] in multiset(ts);
      assert ts[i] in bs;
    }
    forall h | 0 <= h < |bs| ensures bs[h] in ts {
      assert bs[h] in multiset(bs);
    }
    forall i, j | 0 <= i < j < |ts| ensures ts[i] != ts[j] {
      OnceCounted(bs, ts[i]);
      TwiceCounted(ts, i, j);
    }
  }

  lemma TwiceCounted(ts: seq<Track>, i: nat, j: nat)
    requires i < j < |ts|
    ensures ts[i] == ts[j] ==> multiset(ts)[ts[i]] >= 2
  {
    assert ts == ts[..j] + ([ts[j]] + ts[j + 1..]);
    assert multiset(ts) == multiset(ts[..j]) + multiset([ts[j]]) + multiset(ts[j + 1..]);
    assert ts[..j][i] in multiset(ts[..j]);
  }

  lemma {:induction false} OnceCounted(ts: seq<Track>, t: Track)
    requires forall i, j :: 0 <= i < j < |ts| ==> ts[i].handle != ts[j].handle
    ensures multiset(ts)[t] <= 1
  {
    if ts != [] {
      var init, x := ts[..|ts| - 1], ts[|ts| - 1];
      assert ts == init + [x];
      assert multiset(ts) == multiset(init) + multiset([x]);
      OnceCounted(init, t);
      assert x !in init;
    }
  }

  class Mux {
    const timescale: u32
    const megabytes: u32
    const path: seq<byte>
    const file: DataFile
    const journal: TablesFile?
    var tracks: seq<Track>
    var metas: seq<Meta>
    var metaWritten: nat
    var cover: Option<(u32, seq<byte>)>
    var coverWritten: bool
    var maxReached: bool
    ghost var byHandle: seq<Track>       // the tracks in the order they were added
    ghost var committed: seq<Record>     // what the journal holds up to its committed length
    ghost var torn: seq<byte>            // committed bytes after these records: part of a cover
    ghost var log: Log                   // what replaying the committed records gives, while `intact`
    ghost var intact: bool               // every committed record is within the limits of the reader
    ghost var stale: bool                // an override of file metadata will never be journalled
    ghost var synced: bool               // the journal was committed at least once
    ghost var ended: bool                // a sync failed, or the file is closed

    constructor (timescale: u32, megabytes: u32, path: seq<byte>, file: DataFile, journal: TablesFile?)
      ensures this.timescale == timescale && this.megabytes == megabytes && this.path == path
      ensures this.file == file && this.journal == journal
      ensures tracks == byHandle == [] && metas == [] && metaWritten == 0 && cover == None && !coverWritten && !maxReached
      ensures committed == [] && torn == [] && log == EMPTY_LOG && intact && !stale && !ended && !synced
    {
      this.timescale, this.megabytes, this.path, this.file, this.journal := timescale, megabytes, path, file, journal;
      tracks, metas, metaWritten, cover, coverWritten, maxReached := [], [], 0, None, false, false;
      byHandle, committed, torn, log, intact, stale, ended, synced := [], [], [], EMPTY_LOG, true, false, false, false;
    }

    /** Where the media data starts. */
    function Base(): nat
    {
      megabytes * 1024 * 1024
    }

    /** The tracks are those that were added, in some order, each with its handle. */
    ghost predicate HandlesOk()
      reads `tracks, `byHandle
    {
      multiset(tracks) == multiset(byHandle) && forall h :: 0 <= h < |byHandle| ==> byHandle[h].handle == h + 1
    }

    ghost predicate TracksOk()
      reads `tracks, `byHandle, byHandle
    {
      && HandlesOk()
      && forall h :: 0 <= h < |byHandle| ==>
           byHandle[h].handle == h + 1 && byHandle[h].Valid() && (journal != null ==> byHandle[h].live)
    }

    /** Nothing was recovered. */
    ghost predicate AllLive()
      reads `byHandle, byHandle`live
    {
      forall h :: 0 <= h < |byHandle| ==> byHandle[h].live
    }

    /** All recorded samples are in the file, up to `high`, and none overlaps another. */
    ghost predicate DataSafe(high: nat)
      reads `byHandle, byHandle, file`content
    {
      && file.Valid() && 40 <= Base() && Base() + 16 <= high <= |file.content| && Titled(file.content)
      && (forall h :: 0 <= h < |byHandle| ==>
            Stored(file.content, byHandle[h].samples, byHandle[h].payloads, Base() + 16, high) && Growing(byHandle[h].samples))
      && (forall g, h :: 0 <= g < h < |byHandle| ==> Apart(byHandle[g].samples, byHandle[h].samples))
    }

    /** The list walk for a handle. */
    method FindByHandle(handle: nat) returns (t: Option<Track>)
      requires HandlesOk()
      ensures t.Some? <==> 1 <= handle <= |byHandle|
      ensures t.Some? ==> t.value == byHandle[handle - 1] && t.value in tracks
    {
      PermutedTracks(tracks, byHandle);
      if handle > |tracks| { return None; }
      ghost var at := 0;
      if handle > 0 {
        assert byHandle[handle - 1] in tracks;
        at :| 0 <= at < |tracks| && tracks[at] == byHandle[handle - 1];
      }
      for i := 0 to |tracks|
        invariant handle > 0 ==> i <= at
      {
        if tracks[i].handle == handle { return Some(tracks[i]); }
      }
      return None;
    }

    lemma SameTracks()
      requires TracksOk()
      ensures HandlesOk() && Permuted(tracks, byHandle)
    {
      hide Track.Valid, Permuted;
      PermutedTracks(tracks, byHandle);
    }

    ghost predicate MetasOk()
      reads `metas, `metaWritten
    {
      GoodMetas(metas, 0) && metaWritten <= |metas| + 1
    }

    /** The size of a cover is one of the host's sizes. */
    ghost predicate CoverOk()
      reads `cover
    {
      cover.Some? ==> |cover.value.1| < TWO64
    }

    /** What the header of the journal says is there: the committed records. */
    ghost predicate CommittedOk()
      reads `synced, `committed, `torn, journal
    {
      journal != null ==>
        && journal.Valid() && |journal.safe| < TWO63
        && journal.safe == PHeader(if synced then |journal.safe| else 0, megabytes, path, PRecords(committed, torn))
        && (!synced ==> committed == [] && torn == [])
        && PartOfCover(torn)
    }

    /** What was recovered of a track is a prefix of what the track has now. */
    ghost predicate Begun(h: nat)
      requires h < |byHandle|
      reads `log, `byHandle, byHandle
    {
      h < |log.tracks| ==>
        && log.tracks[h].info == ClipInfo(byHandle[h].info)
        && log.tracks[h].samples <= byHandle[h].samples
        && log.tracks[h].chunks <= byHandle[h].chunks
        && log.tracks[h].syncs <= byHandle[h].syncs
        && |log.tracks[h].chunks| == |log.tracks[h].samples| && log.tracks[h].chunkMap == ONE_PER_CHUNK
    }

    ghost predicate PrefixOk()
      reads `log, `byHandle, byHandle
    {
      |log.tracks| <= |byHandle| && forall h :: 0 <= h < |byHandle| ==> Begun(h)
    }

    /** Live and recovered tables are in step, and the tracks the journal has not seen are the last, in order. */
    ghost predicate StepsOk()
      reads `log, `byHandle, byHandle, `tracks, `metas, `metaWritten, `stale
    {
      && (forall h :: 0 <= h < |byHandle| ==> InStep(byHandle[h].State(), log))
      && FileMetasInStep(metas, metaWritten, stale, log)
      && |log.tracks| <= |tracks|
      && (forall i :: 0 <= i < |log.tracks| ==> tracks[i].handle <= |log.tracks|)
      && (forall i :: |log.tracks| <= i < |tracks| ==> tracks[i].handle == i + 1)
    }

    /** The committed records, and what they replay to. */
    ghost predicate JournalOk()
      reads `synced, `committed, `torn, `intact, `ended, `log, journal
    {
      journal != null ==>
        && CommittedOk()
        && (intact ==> ApplyAll(committed, EMPTY_LOG) == Some(log))
        && (!ended ==> torn == [] && journal.pos == |journal.safe|)
    }

    /** What the recovered tables have to do with the live ones. */
    ghost predicate LogOk()
      reads `intact, `ended, `log, `byHandle, byHandle, `tracks, `metas, `metaWritten, `stale
    {
      journal != null && intact ==> PrefixOk() && (!ended ==> StepsOk())
    }

    /** What every operation keeps. */
    ghost predicate Valid()
      reads this, byHandle, file, journal
    {
      TracksOk() && MetasOk() && DataSafe(file.pos) && JournalOk() && LogOk() && CoverOk() && megabytes < 4096
    }

    static lemma InfoGood(info: TrackInfo)
      requires info.timescale > 0 && info.flags < 8 && info.created >= EPOCH_OFFSET && info.modified >= EPOCH_OFFSET
      ensures GoodInfo(ClipInfo(info))
    {
    }

    // ---------- adding a track ----------

    twostate lemma GrownTracksOk(new t: Track)
      requires old(TracksOk()) && t.Valid() && t.live && t.handle == |old(byHandle)| + 1
      requires byHandle == old(byHandle) + [t] && tracks == old(tracks) + [t]
      requires forall h :: 0 <= h < |old(byHandle)| ==> unchanged(byHandle[h])
      ensures TracksOk()
    {
      hide Track.Valid;
      assert multiset(tracks) == multiset(old(tracks)) + multiset{t};
      assert multiset(byHandle) == multiset(old(byHandle)) + multiset{t};
      forall h | 0 <= h < |byHandle| ensures byHandle[h].handle == h + 1 && byHandle[h].Valid() {
        if h < |old(byHandle)| { assert old(byHandle[h].Valid()); }
      }
    }

    twostate lemma GrownDataSafe(new t: Track, new high: nat)
      requires old(DataSafe(high)) && t.samples == [] && t.payloads == []
      requires byHandle == old(byHandle) + [t]
      requires forall h :: 0 <= h < |old(byHandle)| ==> unchanged(byHandle[h])
      requires unchanged(file)
      ensures DataSafe(high)
    {
      forall h | 0 <= h < |old(byHandle)|
        ensures Stored(file.content, byHandle[h].samples, byHandle[h].payloads, Base() + 16, high) && Growing(byHandle[h].samples)
      {
        assert old(Stored(file.content, byHandle[h].samples, byHandle[h].payloads, Base() + 16, high));
      }
    }

    twostate lemma GrownLogOk(new t: Track)
      requires old(LogOk()) && old(|tracks| == |byHandle|)
      requires GoodInfo(ClipInfo(t.info)) && t.handle == |old(byHandle)| + 1
      requires t.State() == NewState(t.handle, t.info)
      requires byHandle == old(byHandle) + [t] && tracks == old(tracks) + [t]
      requires forall h :: 0 <= h < |old(byHandle)| ==> unchanged(byHandle[h])
      requires unchanged(`log) && unchanged(`intact) && unchanged(`ended) && unchanged(`stale) && unchanged(`metas) && unchanged(`metaWritten)
      ensures LogOk()
    {
      hide InStep, FileMetasInStep, GoodInfo, ClipInfo;
      if journal != null && intact {
        forall h | 0 <= h < |byHandle| ensures Begun(h) {
          if h < |old(byHandle)| { assert old(Begun(h)); }
        }
      }
      if journal != null && intact && !ended {
        NewInStep(t.State(), log);
        forall h | 0 <= h < |byHandle| ensures InStep(byHandle[h].State(), log) {
          if h < |old(byHandle)| { assert old(InStep(byHandle[h].State(), log)); }
        }
      }
    }

    /** The checks of a new track, and its place at the end of the list with the next handle. */
    method AppendTrack(typeCode: u32, name: seq<byte>, flags: u32, timescale: u32, created: u64, modified: u64)
      returns (t: Option<Track>)
      requires HandlesOk() && |byHandle| < TWO32 - 1
      requires created < TWO64 - EPOCH_OFFSET && modified < TWO64 - EPOCH_OFFSET
      modifies this`tracks, this`byHandle
      ensures HandlesOk()
      ensures t.Some? <==> timescale != 0 && TypeFromCode(typeCode).Some?
      ensures t.None? ==> byHandle == old(byHandle) && tracks == old(tracks)
      ensures t.Some? ==> fresh(t.value) && byHandle == old(byHandle) + [t.value] && tracks == old(tracks) + [t.value]
      ensures t.Some? ==>
                && t.value.handle == |byHandle| && t.value.payloads == [] && t.value.lastDts == 0
                && t.value.info == TrackInfo(TypeFromCode(typeCode).value, name, flags, timescale, created + EPOCH_OFFSET, modified + EPOCH_OFFSET)
                && t.value.State() == NewState(t.value.handle, t.value.info)
                && (flags < 8 ==> GoodInfo(ClipInfo(t.value.info)) && t.value.Valid()) && t.value.live
    {
      hide Track.Valid, Track.State, GoodInfo, ClipInfo, TypeFromCode;
      var kind := TypeFromCode(typeCode);
      if timescale == 0 || kind.None? { return None; }
      AsManyByHandle(tracks, byHandle);
      var info := TrackInfo(kind.value, name, flags, timescale, created + EPOCH_OFFSET, modified + EPOCH_OFFSET);
      if flags < 8 { InfoGood(info); }
      var n := new Track(|tracks| + 1, info);
      HandlesAppended(tracks, byHandle, n);
      tracks, byHandle := tracks + [n], byHandle + [n];
      return Some(n);
    }

    static lemma AsManyByHandle(ts: seq<Track>, bs: seq<Track>)
      requires multiset(ts) == multiset(bs)
      ensures |ts| == |bs|
    {
      assert |multiset(ts)| == |ts| && |multiset(bs)| == |bs|;
    }

    static lemma HandlesAppended(ts: seq<Track>, bs: seq<Track>, n: Track)
      requires multiset(ts) == multiset(bs) && n.handle == |bs| + 1 && forall h :: 0 <= h < |bs| ==> bs[h].handle == h + 1
      ensures multiset(ts + [n]) == multiset(bs + [n]) && forall h :: 0 <= h < |bs| + 1 ==> (bs + [n])[h].handle == h + 1
    {
    }

    /** A new track gets the next handle. */
    method AddTrack(typeCode: u32, name: seq<byte>, flags: u32, timescale: u32, created: u64, modified: u64)
      returns (handle: Option<u32>)
      requires Valid() && |byHandle| < TWO32 - 1 && flags < 8
      requires created < TWO64 - EPOCH_OFFSET && modified < TWO64 - EPOCH_OFFSET
      modifies this`tracks, this`byHandle
      ensures Valid()
      ensures handle.Some? <==> timescale != 0 && TypeFromCode(typeCode).Some?
      ensures handle.None? ==> byHandle == old(byHandle) && tracks == old(tracks)
      ensures handle.Some? ==>
                && handle.value == |byHandle| == |old(byHandle)| + 1
                && var t := byHandle[|byHandle| - 1];
                   && fresh(t) && byHandle == old(byHandle) + [t] && tracks == old(tracks) + [t] && t.samples == [] && t.live
                   && t.info == TrackInfo(TypeFromCode(typeCode).value, name, flags, timescale, created + EPOCH_OFFSET, modified + EPOCH_OFFSET)
                   && t.State() == NewState(handle.value, t.info) && t.payloads == [] && t.lastDts == 0
    {
      hide TracksOk, DataSafe, MetasOk, JournalOk, LogOk, Track.Valid, Track.State, GoodInfo, ClipInfo, Permuted, HandlesOk;
      SameTracks();
      SameLength(tracks, byHandle);
      var t := AppendTrack(typeCode, name, flags, timescale, created, modified);
      if t.None? { return None; }
      NewTrackEmpty(t.value);
      GrownTracksOk(t.value);
      GrownDataSafe(t.value, file.pos);
      GrownLogOk(t.value);
      return Some(t.value.handle);
    }

    static function NewState(handle: u32, info: TrackInfo): TrackState
    {
      TrackState(handle, info, InitialConfig(info.kind), [], [], [], [], [], ONE_PER_CHUNK, [],
                 false, Written(0, 0, 0, 0, 0), 0)
    }

    static lemma SameLength(ts: seq<Track>, bs: seq<Track>)
      requires Permuted(ts, bs)
      ensures |ts| == |bs|
    {
    }

    static lemma NewTrackEmpty(t: Track)
      requires t.State() == NewState(t.handle, t.info)
      ensures t.samples == [] && t.metas == [] && t.config == InitialConfig(t.info.kind)
    {
    }

    // ---------- changing a track ----------

    /** Only track `k` changed. */
    twostate predicate OnlyTrack(k: nat)
      requires k < |byHandle|
      reads `byHandle, byHandle, `tracks
    {
      && byHandle == old(byHandle) && tracks == old(tracks)
      && forall h :: 0 <= h < |byHandle| && h != k ==> unchanged(byHandle[h])
    }

    twostate lemma ChangedTracksOk(k: nat)
      requires k < |old(byHandle)| && k < |byHandle| && old(TracksOk()) && OnlyTrack(k) && byHandle[k].Valid()
      requires byHandle[k].live == old(byHandle[k].live)
      ensures TracksOk()
    {
      hide Track.Valid;
      forall h | 0 <= h < |byHandle| ensures byHandle[h].handle == h + 1 && byHandle[h].Valid() {
        if h != k { assert old(byHandle[h].Valid()); }
      }
    }

    /** The samples of the track are as they were. */
    twostate lemma ChangedDataSafe(k: nat)
      requires k < |old(byHandle)| && k < |byHandle| && old(DataSafe(file.pos))
      requires OnlyTrack(k)
      requires unchanged(file)
      requires byHandle[k].samples == old(byHandle[k].samples)
      requires byHandle[k].payloads == old(byHandle[k].payloads)
      ensures DataSafe(file.pos)
    {
      hide Stored, Growing, Apart;
      assert forall h :: 0 <= h < |byHandle| ==> byHandle[h].samples == old(byHandle[h].samples) && byHandle[h].payloads == old(byHandle[h].payloads);
    }

    /** The track is still in step, and its tables did not shrink. */
    twostate lemma ChangedLogOk(k: nat)
      requires k < |old(byHandle)| && k < |byHandle| && old(LogOk()) && OnlyTrack(k)
      requires unchanged(`log) && unchanged(`intact) && unchanged(`ended) && unchanged(`stale) && unchanged(`metas) && unchanged(`metaWritten)
      requires old(InStep(byHandle[k].State(), log)) ==> InStep(byHandle[k].State(), log)
      requires old(byHandle[k].samples) <= byHandle[k].samples && old(byHandle[k].chunks) <= byHandle[k].chunks
      requires old(byHandle[k].syncs) <= byHandle[k].syncs
      ensures LogOk()
    {
      hide InStep, FileMetasInStep, ClipInfo;
      if journal != null && intact {
        forall h | 0 <= h < |byHandle| ensures Begun(h) {
          assert old(Begun(h));
        }
      }
      if journal != null && intact && !ended {
        forall h | 0 <= h < |byHandle| ensures InStep(byHandle[h].State(), log) {
          assert old(InStep(byHandle[h].State(), log));
        }
      }
    }

    /** Adds a reference from one track to another handle, which need not exist. */
    method AddReference(handle: u32, ref: u32) returns (r: AddResult)
      requires Valid()
      modifies byHandle`refs, byHandle`infoWritten
      ensures Valid()
      ensures r.Added? <==> 1 <= handle <= |byHandle| && ref != 0 && |old(byHandle[handle - 1].refs)| < REFS_SIZE / 4
      ensures r.Added? ==> OnlyTrack(handle - 1)
      ensures r.Added? && ref !in old(byHandle[handle - 1].refs) ==>
                byHandle[handle - 1].State() == old(byHandle[handle - 1].State()).(refs := old(byHandle[handle - 1].refs) + [ref], infoWritten := false)
      ensures r.Added? && ref in old(byHandle[handle - 1].refs) ==> byHandle[handle - 1].State() == old(byHandle[handle - 1].State())
      ensures !r.Added? ==> forall h :: 0 <= h < |byHandle| ==> byHandle[h].State() == old(byHandle[h].State())
    {
      hide TracksOk, DataSafe, MetasOk, JournalOk, LogOk, Track.Valid, InStep, HandlesOk, Permuted;
      if handle == 0 || ref == 0 { return Einval; }
      SameTracks();
      var t := FindByHandle(handle);
      if t.None? { return Enoent; }
      ghost var k: nat, before := handle - 1, t.value.State();
      TrackValid(k);
      var ok := t.value.AddReference(ref);
      if InStep(before, log) && |before.refs| < REFS_SIZE / 4 { ReferenceInStep(before, log, ref); }
      ChangedTracksOk(k);
      ChangedDataSafe(k);
      ChangedLogOk(k);
      r := if ok then Added else Enospc;
    }

    lemma TrackValid(k: nat)
      requires TracksOk() && k < |byHandle|
      ensures byHandle[k].Valid() && byHandle[k].handle == k + 1
      ensures forall h :: 0 <= h < |byHandle| && h != k ==> byHandle[h] != byHandle[k]
    {
      hide Track.Valid;
    }

    /**
     Sets the decoder configuration, the audio configuration or the MIME type of a track.
     A refused video configuration still changes the codec and the size of the picture.
     */
    method SetConfig(handle: u32, c: Config) returns (r: AddResult)
      requires Valid()
      modifies byHandle`config
      ensures Valid()
      ensures r.Added? <==> 1 <= handle <= |byHandle| && Accepts(byHandle[handle - 1].info.kind, c)
      ensures r.Added? ==> ConfigGiven(byHandle[handle - 1].config, c) && ((c.Aac? ==> |c.asc| < TWO32) ==> byHandle[handle - 1].config == c)
      ensures !r.Added? && 1 <= handle <= |byHandle| ==>
                ConfigRefused(byHandle[handle - 1].info.kind, old(byHandle[handle - 1].config), byHandle[handle - 1].config, c)
      ensures 1 <= handle <= |byHandle| ==>
                && OnlyTrack(handle - 1)
                && byHandle[handle - 1].State() == old(byHandle[handle - 1].State()).(config :=
                     if r.Added? then Accepted(c) else AfterRefusal(byHandle[handle - 1].info.kind, old(byHandle[handle - 1].config), c))
      ensures !(1 <= handle <= |byHandle|) ==> forall h :: 0 <= h < |byHandle| ==> unchanged(byHandle[h])
    {
      hide TracksOk, DataSafe, MetasOk, JournalOk, LogOk, Track.Valid, InStep, HandlesOk, Permuted, ConfigGiven, ConfigRefused;
      if handle == 0 { return Einval; }
      SameTracks();
      var t := FindByHandle(handle);
      if t.None? { return Enoent; }
      ghost var k: nat, before := handle - 1, t.value.State();
      TrackValid(k);
      var ok := t.value.SetConfig(c);
      if InStep(before, log) { ConfigInStep(before, log, t.value.config); }
      ChangedTracksOk(k);
      ChangedDataSafe(k);
      ChangedLogOk(k);
      r := if ok then Added else Einval;
    }

    /** Metadata of a track. */
    method AddTrackMetadata(handle: u32, key: Key, value: seq<byte>) returns (r: AddResult)
      requires Valid()
      modifies byHandle`metas, byHandle`metaWritten
      ensures Valid()
      ensures r.Added? <==> 1 <= handle <= |byHandle| && ValidKey(key)
      ensures r.Added? ==> OnlyTrack(handle - 1) && byHandle[handle - 1].metas == Add(old(byHandle[handle - 1].metas), key, value, true)
      ensures r.Added? && IndexOf(old(byHandle[handle - 1].metas), key) < |old(byHandle[handle - 1].metas)| ==> byHandle[handle - 1].metaWritten == 0
      ensures !r.Added? ==> forall h :: 0 <= h < |byHandle| ==> byHandle[h].State() == old(byHandle[h].State())
    {
      hide TracksOk, DataSafe, MetasOk, JournalOk, LogOk, Track.Valid, InStep, ValidKey, Add, IndexOf;
      if handle == 0 || handle > |tracks| {
        SameTracks();
        return Einval;
      }
      SameTracks();
      var t := FindByHandle(handle);
      if t.None? { return Enoent; }
      ghost var k: nat, before := handle - 1, t.value.State();
      TrackValid(k);
      TrackMetasCounted(t.value);
      var ok := t.value.AddMeta(key, value);
      if ok && InStep(before, log) { MetaInStep(before, log, key, value); }
      ChangedTracksOk(k);
      ChangedDataSafe(k);
      ChangedLogOk(k);
      r := if ok then Added else Einval;
    }

    static lemma TrackMetasCounted(t: Track)
      requires t.Valid()
      ensures t.metaWritten <= |t.metas| + 1
    {
    }

    /** Metadata of the file; overriding an entry that is in the journal already leaves the recovered one stale. */
    method AddFileMetadata(key: Key, value: seq<byte>) returns (r: AddResult)
      requires Valid()
      modifies `metas, `stale
      ensures Valid()
      ensures r.Added? <==> ValidKey(key)
      ensures metas == if r.Added? then Add(old(metas), key, value, true) else old(metas)
      ensures stale == (old(stale) || (r.Added? && IndexOf(old(metas), key) < FirstUnwritten(metaWritten, |old(metas)|)))
    {
      hide TracksOk, DataSafe, JournalOk, Track.Valid, InStep, ValidKey, Add, IndexOf, GoodMetas, FileMetasInStep;
      var l, found := AddMetadata(metas, key, value, true);
      if l.None? { return Einval; }
      AddKeepsGood(metas, 0, key, value);
      if FileMetasInStep(metas, metaWritten, stale, log) {
        FileMetaInStep(metas, metaWritten, stale, log, key, value);
      }
      stale := stale || IndexOf(metas, key) < FirstUnwritten(metaWritten, |metas|);
      metas := l.value;
      return Added;
    }

    /** The cover of the file, to be journalled by the next sync. */
    method SetCover(kind: u32, data: seq<byte>) returns (r: AddResult)
      requires Valid() && |data| < TWO64
      modifies `cover, `coverWritten
      ensures Valid()
      ensures r.Added? <==> kind != 0 && data != []
      ensures r.Added? ==> cover == Some((kind, data)) && !coverWritten
      ensures !r.Added? ==> cover == old(cover) && coverWritten == old(coverWritten)
    {
      hide TracksOk, DataSafe, MetasOk, JournalOk, LogOk;
      if kind == 0 || data == [] { return Einval; }
      cover, coverWritten := Some((kind, data)), false;
      return Added;
    }

    // ---------- samples ----------

    /** A write at or after the end of the recorded samples leaves them alone. */
    twostate lemma AppendedDataSafe(high: nat)
      requires old(DataSafe(high)) && byHandle == old(byHandle)
      requires forall h :: 0 <= h < |byHandle| ==> unchanged(byHandle[h])
      requires file.Valid() && KeptOutside(old(file.content), file.content, high, |file.content|)
      ensures DataSafe(high)
    {
      hide Stored, Growing, Apart, KeptOutside;
      KeptLength(old(file.content), file.content, high, |file.content|);
      TitleKept(old(file.content), file.content, high, |file.content|);
      forall h | 0 <= h < |byHandle|
        ensures Stored(file.content, byHandle[h].samples, byHandle[h].payloads, Base() + 16, high) && Growing(byHandle[h].samples)
      {
        assert old(Growing(byHandle[h].samples));
        StoredFrame(old(file.content), file.content, byHandle[h].samples, byHandle[h].payloads, Base() + 16, high, high, |file.content|);
      }
      forall g, h | 0 <= g < h < |byHandle| ensures Apart(byHandle[g].samples, byHandle[h].samples) {
        assert old(Apart(byHandle[g].samples, byHandle[h].samples));
      }
    }

    /** One more sample of track `k`, right after all the others. */
    twostate lemma GrownSampleSafe(k: nat, new x: Sample, new payload: seq<byte>, new high: nat)
      requires old(DataSafe(high)) && k < |byHandle| == |old(byHandle)|
      requires OnlyTrack(k)
      requires unchanged(file)
      requires byHandle[k].samples == old(byHandle[k].samples) + [x] && byHandle[k].payloads == old(byHandle[k].payloads) + [payload]
      requires x.offset == high && high + x.size <= file.pos <= |file.content|
      requires file.content[x.offset..x.offset + x.size] == payload
      ensures DataSafe(file.pos)
    {
      hide Stored, Growing, Apart;
      var c := file.content;
      forall h | 0 <= h < |byHandle|
        ensures Stored(c, byHandle[h].samples, byHandle[h].payloads, Base() + 16, file.pos) && Growing(byHandle[h].samples)
      {
        assert old(Stored(c, byHandle[h].samples, byHandle[h].payloads, Base() + 16, high));
        assert old(Growing(byHandle[h].samples));
        if h == k {
          StoredAppend(c, old(byHandle[k].samples), old(byHandle[k].payloads), Base() + 16, high, x, payload, file.pos);
        } else {
          StoredMore(c, byHandle[h].samples, byHandle[h].payloads, Base() + 16, high, file.pos);
        }
      }
      forall g, h | 0 <= g < h < |byHandle| ensures Apart(byHandle[g].samples, byHandle[h].samples) {
        assert old(Apart(byHandle[g].samples, byHandle[h].samples));
        assert old(Stored(c, byHandle[h].samples, byHandle[h].payloads, Base() + 16, high));
        assert old(Stored(c, byHandle[g].samples, byHandle[g].payloads, Base() + 16, high));
        if g == k {
          ApartAppend(c, old(byHandle[k].samples), byHandle[h].samples, byHandle[h].payloads, Base() + 16, high, x);
        } else if h == k {
          ApartSymmetric(byHandle[g].samples, old(byHandle[k].samples));
          ApartAppend(c, old(byHandle[k].samples), byHandle[g].samples, byHandle[g].payloads, Base() + 16, high, x);
          ApartSymmetric(byHandle[k].samples, byHandle[g].samples);
        }
      }
    }

    /** Writes at the current position; a write that falls short leaves the position where it was. */
    method WriteData(data: seq<byte>) returns (ok: bool)
      requires DataSafe(file.pos)
      modifies file
      ensures DataSafe(old(file.pos)) && old(file.pos) < TWO63
      ensures ok ==> file.pos == old(file.pos) + |data| <= |file.content|
      ensures ok ==> forall n :: 0 <= n <= |data| ==> file.content[old(file.pos)..old(file.pos) + n] == data[..n]
      ensures !ok ==> file.pos == old(file.pos)
      ensures !ok ==> old(file.grants) != [] || old(file.pos) + |data| > FILE_MAX
      ensures old(file.grants) == [] ==> file.grants == []
    {
      hide Stored, Growing, Apart, Overwrite, KeptOutside;
      var offset := file.pos;
      var n := file.Write(data);
      ghost var at: nat := offset;
      WrittenBytes(old(file.content), at, data[..n], file.content);
      AppendedDataSafe(at);
      ok := n == |data|;
      if ok {
        assert data[..n] == data;
      } else {
        file.SeekTo(offset);
      }
    }

    static lemma WrittenBytes(c: seq<byte>, at: nat, b: seq<byte>, d: seq<byte>)
      requires d == Overwrite(c, at, b) && at <= |c|
      ensures at + |b| <= |d|
      ensures forall n :: 0 <= n <= |b| ==> d[at..at + n] == b[..n]
      ensures KeptOutside(c, d, at, |d|)
    {
    }

    static lemma SampleFits(size: nat)
      ensures size % TWO32 <= size
    {
    }

    /** Track `k` has one more sample, at the given position. */
    twostate predicate Recorded(k: nat, new offset: u64, new data: seq<byte>, new dts: int, new sync: bool)
      requires k < |byHandle|
      reads `byHandle, byHandle, `tracks
    {
      && OnlyTrack(k) && k < |old(byHandle)|
      && var t, s := byHandle[k], old(byHandle[k].State());
      && var isSync := sync && t.info.kind.Video?;
      && t.State() == s.(samples := s.samples + [Sample(|data| % TWO32, offset, dts % TWO64)],
                         chunks := s.chunks + [offset],
                         syncs := s.syncs + (if isSync then [(|s.samples| + 1) % TWO32] else []))
      && t.payloads == old(t.payloads) + [data[..Min(|data| % TWO32, |data|)]]
      && t.lastDts == dts && t.live
    }

    /** The record of a sample whose bytes are in the file. */
    method RecordSample(t: Track, ghost k: nat, offset: u64, data: seq<byte>, dts: int, sync: bool)
      requires TracksOk() && LogOk() && k < |byHandle| && t == byHandle[k] && |t.samples| < TWO32 - 1 && t.live
      requires -TWO63 <= dts < TWO63
      requires DataSafe(offset) && offset + |data| == file.pos <= |file.content|
      requires forall n :: 0 <= n <= |data| ==> file.content[offset..offset + n] == data[..n]
      modifies t
      ensures TracksOk() && LogOk() && DataSafe(file.pos)
      ensures Recorded(k, offset, data, dts, sync)
    {
      hide TracksOk, LogOk, DataSafe, Track.Valid, InStep;
      var size: u32 := |data| % TWO32;
      ghost var before := t.State();
      TrackValid(k);
      SampleFits(|data|);
      ghost var x := Sample(size, offset, dts % TWO64);
      t.Append(size, offset, dts, sync, data[..size]);
      if InStep(before, log) { AppendInStep(before, log, x, sync && t.info.kind.Video?); }
      ChangedTracksOk(k);
      ChangedLogOk(k);
      GrownSampleSafe(k, x, data[..size], offset);
    }

    /**
     Writes the buffers of a sample at the current position and records it. A write
     that falls short leaves junk behind, but no record.
     */
    method AddSample(handle: u32, buffers: seq<seq<byte>>, dts: int, sync: bool) returns (r: AddResult)
      requires Valid() && AllLive() && -TWO63 <= dts < TWO63
      requires forall h :: 0 <= h < |byHandle| ==> |byHandle[h].samples| < TWO32 - 1
      modifies byHandle, file
      ensures Valid()
      ensures r.Added? || r.Enospc? ==>
                && 1 <= handle <= |byHandle| && buffers != []
                && (old(byHandle[handle - 1].lastDts) == 0 || old(byHandle[handle - 1].lastDts) < dts)
      ensures r.Enoent? ==> !(1 <= handle <= |byHandle|)
      ensures r.Einval? ==>
                || handle == 0 || buffers == []
                || (handle <= |byHandle| && old(byHandle[handle - 1].lastDts) != 0 && dts <= old(byHandle[handle - 1].lastDts))
      ensures r.Added? ==> file.pos == old(file.pos) + |Flatten(buffers)| && 0 <= old(file.pos) < TWO64
      ensures r.Added? ==> Recorded(handle - 1, old(file.pos), Flatten(buffers), dts, sync)
      ensures !r.Added? ==> file.pos == old(file.pos) && forall h :: 0 <= h < |byHandle| ==> unchanged(byHandle[h])
      ensures r.Einval? || r.Enoent? ==> unchanged(file)
      ensures r.Enospc? ==> old(file.grants) != [] || old(file.pos) + |Flatten(buffers)| > FILE_MAX
      ensures old(file.grants) == [] ==> file.grants == []
    {
      hide TracksOk, MetasOk, JournalOk, LogOk, DataSafe, Track.Valid, InStep, HandlesOk, Permuted;
      if handle == 0 || |buffers| == 0 { return Einval; }
      SameTracks();
      var found := FindByHandle(handle);
      if found.None? { return Enoent; }
      var t := found.value;
      if t.lastDts != 0 && dts <= t.lastDts { return Einval; }
      var data := Flatten(buffers);
      var offset := file.pos;
      ghost var k: nat := handle - 1;
      var ok := WriteData(data);
      if !ok { return Enospc; }
      RecordSample(t, k, offset, data, dts, sync);
      return Added;
    }

    // ---------- sync ----------

    static function States(ts: seq<Track>): (s: seq<TrackState>)
      ensures |s| == |ts| && forall i :: 0 <= i < |ts| ==> s[i] == ts[i].State()
      reads ts
    {
      seq(|ts|, i requires 0 <= i < |ts| reads ts => ts[i].State())
    }

    /** The tracks before `i` are synced, the others as they were. */
    ghost predicate SyncedUpTo(states: seq<TrackState>, i: nat)
      reads `tracks, tracks
    {
      && |states| == |tracks|
      && forall j :: 0 <= j < |tracks| ==> tracks[j].State() == if j < i then Synced(states[j]) else states[j]
    }

    static lemma NextTrackRecords(states: seq<TrackState>, i: nat, after: seq<byte>)
      requires AllInRange(states) && i < |states|
      ensures PRecords(AllTrackRecords(states[i..]), after) ==
              PRecords(TrackRecords(states[i]), PRecords(AllTrackRecords(states[i + 1..]), after))
    {
      hide PRecords, TrackRecords, InRange;
      assert states[i..][1..] == states[i + 1..];
      RecordsAppend(TrackRecords(states[i]), AllTrackRecords(states[i + 1..]), after);
    }

    static lemma NoTrackRecords(states: seq<TrackState>, after: seq<byte>)
      ensures states[..] == states[0..] == states && states[|states|..] == [] && AllInRange([])
      ensures PRecords(AllTrackRecords([]), after) == after
    {
    }

    lemma TrackSyncable(i: nat)
      requires TracksOk() && i < |tracks|
      ensures var t := tracks[i];
              && 1 <= t.handle <= |byHandle| && t == byHandle[t.handle - 1]
              && t.Valid() && (journal != null ==> t.live) && InRange(t.State()) && ConfigSuits(t.info.kind, t.config) && t.metaWritten <= |t.metas| + 1
      ensures forall j :: 0 <= j < |tracks| && j != i ==> tracks[j] != tracks[i]
      ensures forall h :: 0 <= h < |byHandle| && h != tracks[i].handle - 1 ==> byHandle[h] != tracks[i]
    {
      SameTracks();
      hide GoodMetas, GoodInfo, Entries, SyncsWithin, OwnChunks;
      assert byHandle[tracks[i].handle - 1].Valid();
    }

    /** The records of every track, one track after the other. */
    method SyncTracks(ghost states: seq<TrackState>, ghost goal: seq<byte>, ghost after: seq<byte>) returns (ok: bool)
      requires journal != null && journal.Valid() && TracksOk()
      requires SyncedUpTo(states, 0) && AllInRange(states)
      requires journal.Written() + PRecords(AllTrackRecords(states), after) == goal
      modifies journal, tracks`writtenTimes, tracks`writtenSyncs, tracks`writtenChunkMap, tracks`writtenSamples
      modifies tracks`writtenChunks, tracks`metaWritten, tracks`infoWritten
      ensures journal.Valid() && journal.safe == old(journal.safe) && TracksOk()
      ensures ok ==> journal.Written() + after == goal && SyncedUpTo(states, |states|)
      ensures ok ==> !AnyUndescribed(states)
      ensures !ok ==> journal.room == 0 || AnyUndescribed(states)
    {
      hide TracksOk, Track.Valid, Track.State, Synced, TrackRecords, AllTrackRecords, PRecords, InRange, ConfigSuits, Undescribed;
      NoTrackRecords(states, after);
      for i := 0 to |tracks|
        invariant journal.Valid() && journal.safe == old(journal.safe) && TracksOk()
        invariant SyncedUpTo(states, i)
        invariant forall k :: 0 <= k < i ==> !Undescribed(states[k])
        invariant journal.Written() + PRecords(AllTrackRecords(states[i..]), after) == goal
      {
        label Turn:
        TrackSyncable(i);
        NextTrackRecords(states, i, after);
        ghost var k: nat := tracks[i].handle - 1;
        ok := SyncWholeTrack(journal, tracks[i], goal, PRecords(AllTrackRecords(states[i + 1..]), after));
        tracks[i].CountersValid@Turn();
        ChangedTracksOk@Turn(k);
        if !ok { return; }
      }
      return true;
    }

    /** The records of the tracks and of the file metadata. */
    method SyncTables(ghost states: seq<TrackState>, ghost goal: seq<byte>, ghost after: seq<byte>) returns (ok: bool)
      requires journal != null && journal.Valid() && TracksOk()
      requires SyncedUpTo(states, 0) && AllInRange(states)
      requires journal.Written() + PRecords(SyncRecords(states, metas, metaWritten, None), after) == goal
      modifies journal, `metaWritten, tracks`writtenTimes, tracks`writtenSyncs, tracks`writtenChunkMap, tracks`writtenSamples
      modifies tracks`writtenChunks, tracks`metaWritten, tracks`infoWritten
      ensures journal.Valid() && journal.safe == old(journal.safe) && TracksOk()
      ensures metaWritten == old(metaWritten) || metaWritten == |metas| + 1
      ensures ok ==> journal.Written() + after == goal && SyncedUpTo(states, |states|) && metaWritten == |metas| + 1
      ensures ok ==> !AnyUndescribed(states)
      ensures !ok ==> journal.room == 0 || AnyUndescribed(states)
    {
      hide TracksOk, AllTrackRecords, PRecords, MetaItems, SyncedUpTo, Track.State, AnyUndescribed;
      ghost var items := MetaItems(0, metas[FirstUnwritten(metaWritten, |metas|)..]);
      assert items + CoverRecords(None) == items;
      RecordsAppend(AllTrackRecords(states), items, after);
      ok := SyncTracks(states, goal, PRecords(items, after));
      if !ok { return; }
      var n;
      ok, n := SyncMeta(journal, 0, metas, metaWritten, goal, after);
      metaWritten := n;
    }

    /** The records of a sync with a cover are those without it, and the cover. */
    static lemma CoverLast(states: seq<TrackState>, ms: seq<Meta>, written: nat, cover: Option<(u32, seq<byte>)>, t: seq<byte>)
      requires AllInRange(states)
      ensures SyncRecords(states, ms, written, cover) == SyncRecords(states, ms, written, None) + CoverRecords(cover)
      ensures PRecords(SyncRecords(states, ms, written, cover), t) ==
              PRecords(SyncRecords(states, ms, written, None), PRecords(CoverRecords(cover), t))
    {
      hide AllTrackRecords, MetaItems, PRecords;
      var items := MetaItems(0, ms[FirstUnwritten(written, |ms|)..]);
      assert items + CoverRecords(None) == items;
      assert AllTrackRecords(states) + (items + CoverRecords(cover)) == (AllTrackRecords(states) + items) + CoverRecords(cover);
      RecordsAppend(SyncRecords(states, ms, written, None), CoverRecords(cover), t);
    }

    static lemma OneCover(kind: u32, data: seq<byte>, t: seq<byte>)
      ensures PRecords(CoverRecords(Some((kind, data))), t) == PRecord(Cover(kind, data), t)
    {
      hide PRecord;
      assert [Cover(kind, data)][1..] == [];
    }

    /**
     The cover, if it is to be written. Its failure goes unnoticed: `got` is what was
     written whole, `part` what was written of the rest.
     */
    method SyncCover() returns (whole: bool, ghost got: Option<(u32, seq<byte>)>, ghost part: seq<byte>)
      requires journal != null && journal.Valid() && CoverOk()
      modifies journal, `coverWritten
      ensures journal.Valid() && journal.safe == old(journal.safe) && PartOfCover(part)
      ensures journal.Written() == old(journal.Written()) + PRecords(CoverRecords(got), part)
      ensures got.Some? ==> got == cover && !old(coverWritten) && part == []
      ensures cover.None? || old(coverWritten) ==> got.None? && part == []
      ensures coverWritten == (old(coverWritten) || cover.Some?)
      ensures whole <==> got.Some? || cover.None? || old(coverWritten)
      ensures !whole ==> journal.room == 0
    {
      hide PRecord;
      NothingOfCover();
      whole, got, part := true, None, [];
      if !coverWritten && cover.Some? {
        var kind, data := cover.value.0, cover.value.1;
        ghost var before, bytes := journal.Written(), PRecord(Cover(kind, data), []);
        OneCover(kind, data, []);
        var ok := WriteCover(journal, kind, data, before + bytes, []);
        if ok {
          got := cover;
          assert journal.Written() + [] == journal.Written();
        } else {
          part := Partly(before, journal.Written(), bytes);
          whole := false;
        }
        coverWritten := true;
      }
    }

    // ---------- what a sync means for the log ----------

    /** Seen tracks have handles up to `n`, the others come in order: what replay needs. */
    static lemma {:induction false} OrderedForReplay(ts: seq<TrackState>, from: nat, n: nat)
      requires forall i :: 0 <= i < |ts| ==> if from + i < n then 1 <= ts[i].handle <= n else ts[i].handle == from + i + 1
      ensures NewInOrder(ts, Max(n, from)) && LastHandle(ts, Max(n, from)) == Max(n, from + |ts|)
      decreases |ts|
    {
      if ts != [] {
        OrderedForReplay(ts[1..], from + 1, n);
      }
    }

    lemma StatesDistinct(states: seq<TrackState>)
      requires TracksOk() && SyncedUpTo(states, 0)
      ensures AllInRange(states) && DistinctHandles(states)
      ensures forall i :: 0 <= i < |states| ==> states[i].handle == tracks[i].handle && 1 <= states[i].handle <= |byHandle|
    {
      hide Track.Valid, InRange, TracksOk;
      SameTracks();
      forall i | 0 <= i < |states|
        ensures InRange(states[i]) && states[i].handle == tracks[i].handle && 1 <= states[i].handle <= |byHandle|
      {
        TrackSyncable(i);
      }
      forall i, j | 0 <= i < j < |states| ensures states[i].handle != states[j].handle {
        assert tracks[i] != tracks[j];
      }
    }

    /** The live tables can be synced: the premises of the replay theorem. */
    lemma SyncReady(states: seq<TrackState>)
      requires TracksOk() && SyncedUpTo(states, 0) && StepsOk()
      ensures AllInRange(states) && DistinctHandles(states) && NewInOrder(states, |log.tracks|)
      ensures LastHandle(states, |log.tracks|) == |tracks|
      ensures forall i :: 0 <= i < |states| ==> InStep(states[i], log)
    {
      hide InStep, Track.Valid, FileMetasInStep, TracksOk, AllInRange, DistinctHandles, Track.State, Permuted;
      StatesDistinct(states);
      SameTracks();
      forall i | 0 <= i < |states| ensures InStep(states[i], log) {
        TrackSyncable(i);
        assert InStep(byHandle[tracks[i].handle - 1].State(), log);
      }
      OrderedForReplay(states, 0, |log.tracks|);
    }

    lemma StatesInRange(states: seq<TrackState>)
      requires TracksOk() && SyncedUpTo(states, 0)
      ensures AllInRange(states)
    {
      hide Track.Valid, InRange, Track.State;
      forall i | 0 <= i < |states| ensures InRange(states[i]) {
        TrackSyncable(i);
      }
    }

    /** After a sync that can be replayed, the recovered tables are in step with the live ones. */
    lemma SyncedSteps(states: seq<TrackState>, before: Log)
      requires TracksOk() && SyncedUpTo(states, |states|)
      requires forall i :: 0 <= i < |states| ==> Captured(states[i], before, log)
      requires |log.tracks| == |tracks| && FileMetasInStep(metas, metaWritten, stale, log)
      ensures StepsOk() && PrefixOk()
    {
      hide InStep, Track.Valid, FileMetasInStep, Captured, Synced, TracksOk, Track.State;
      SameTracks();
      forall h | 0 <= h < |byHandle| ensures InStep(byHandle[h].State(), log) && Begun(h) {
        assert byHandle[h] in tracks;
        var i :| 0 <= i < |tracks| && tracks[i] == byHandle[h];
        TrackSyncable(i);
        CapturedBegun(states[i], before, i);
      }
    }

    lemma CapturedBegun(s: TrackState, before: Log, i: nat)
      requires i < |tracks| && tracks[i].State() == Synced(s) && Captured(s, before, log)
      requires 1 <= tracks[i].handle <= |byHandle| && tracks[i] == byHandle[tracks[i].handle - 1]
      ensures InStep(tracks[i].State(), log) && Begun(tracks[i].handle - 1)
    {
      hide GoodMetas, GoodInfo, UpTo, RefBytes, ClipInfo, ClipMetas, ClipConfig;
    }

    /** The log has everything the track has. */
    ghost predicate Complete(h: nat)
      requires h < |byHandle|
      reads `log, `byHandle, byHandle
    {
      && h < |log.tracks|
      && var c, t := log.tracks[h], byHandle[h];
      && c.info == ClipInfo(t.info) && c.refs == RefBytes(t.refs)
      && c.samples == t.samples && c.chunks == t.chunks
      && (t.samples != [] ==> c.syncs == t.syncs && c.metas == ClipMetas(t.metas))
    }

    lemma CapturedComplete(s: TrackState, before: Log, i: nat)
      requires i < |tracks| && tracks[i].State() == Synced(s) && Captured(s, before, log)
      requires 1 <= tracks[i].handle <= |byHandle| && tracks[i] == byHandle[tracks[i].handle - 1]
      ensures Complete(tracks[i].handle - 1)
    {
      hide GoodMetas, GoodInfo, UpTo, RefBytes, ClipInfo, ClipMetas, ClipConfig;
    }

    lemma SyncedComplete(states: seq<TrackState>, before: Log)
      requires TracksOk() && SyncedUpTo(states, |states|)
      requires forall i :: 0 <= i < |states| ==> Captured(states[i], before, log)
      ensures forall h :: 0 <= h < |byHandle| ==> Complete(h)
    {
      hide Track.Valid, Captured, Synced, TracksOk, Track.State, Complete;
      SameTracks();
      forall h | 0 <= h < |byHandle| ensures Complete(h) {
        assert byHandle[h] in tracks;
        var i :| 0 <= i < |tracks| && tracks[i] == byHandle[h];
        TrackSyncable(i);
        CapturedComplete(states[i], before, i);
      }
    }

    /** The configuration the log has of a track after a sync: as it was when its description was last written. */
    static function Redescribed(before: Log, s: TrackState): Config
    {
      if s.infoWritten && 1 <= s.handle <= |before.tracks| then before.tracks[s.handle - 1].config
      else ClipConfig(s.info.kind, s.config)
    }

    static predicate ConfigsLogged(states: seq<TrackState>, before: Log, after: Log)
    {
      forall i :: 0 <= i < |states| ==>
        1 <= states[i].handle <= |after.tracks| && after.tracks[states[i].handle - 1].config == Redescribed(before, states[i])
    }

    static lemma CapturedConfigs(states: seq<TrackState>, before: Log, after: Log)
      requires forall i :: 0 <= i < |states| ==> Captured(states[i], before, after)
      ensures ConfigsLogged(states, before, after)
    {
      hide GoodMetas, GoodInfo, UpTo, RefBytes, ClipInfo, ClipMetas, ClipConfig, InStep;
      forall i | 0 <= i < |states|
        ensures 1 <= states[i].handle <= |after.tracks| && after.tracks[states[i].handle - 1].config == Redescribed(before, states[i])
      {
        assert Captured(states[i], before, after);
      }
    }

    /** What a replay of this sync on top of the log gives. */
    ghost predicate Replayed(states: seq<TrackState>, before: Log, written: nat, got: Option<(u32, seq<byte>)>, r: Option<Log>)
      reads `tracks, `metas, `stale
    {
      r.Some? ==>
        && |r.value.tracks| == |tracks| && FileMetasInStep(metas, written, stale, r.value)
        && (!stale ==> r.value.metas == ClipMetas(metas))
        && r.value.cover == (if got.Some? then got else before.cover)
        && forall i :: 0 <= i < |states| ==> Captured(states[i], before, r.value)
    }

    /** Replaying the committed records and then those of this sync. */
    lemma LogAfterSync(states: seq<TrackState>, written: nat, got: Option<(u32, seq<byte>)>)
      requires journal != null && intact && !ended && JournalOk() && TracksOk() && StepsOk() && SyncedUpTo(states, 0) && written == metaWritten
      ensures AllInRange(states)
      ensures var rs := SyncRecords(states, metas, written, got);
              var r := ApplyAll(rs, log);
              && (r.Some? <==> SyncLoggable(states, metas, written, got))
              && ApplyAll(committed + rs, EMPTY_LOG) == r
              && Replayed(states, log, |metas| + 1, got, r)
    {
      hide Apply, Replayable, TracksOk, SyncRecords, SyncLoggable, FileMetasInStep, Captured, InStep, CommittedOk, SyncedUpTo;
      SyncReady(states);
      assert FileMetasInStep(metas, written, stale, log);
      SyncReplays(states, metas, written, stale, got, log);
      ApplyAllAppend(committed, SyncRecords(states, metas, written, got), EMPTY_LOG);
    }

    /** The journal after its length was committed at the current position. */
    lemma CommittedBytes(before: seq<byte>, content: seq<byte>, rs: seq<Record>, part: seq<byte>, pos: nat)
      requires |before| < TWO63 && pos < TWO63 && pos <= |content|
      requires before == PHeader(if synced then |before| else 0, megabytes, path, PRecords(committed, []))
      requires content[..pos] == before + PRecords(rs, part)
      ensures SIZE_AT + 8 <= pos
      ensures (content[..SIZE_AT] + LE64(pos) + content[SIZE_AT + 8..])[..pos] ==
              PHeader(pos, megabytes, path, PRecords(committed + rs, part))
    {
      hide PHeader, PRecords, LE64;
      var size: u64 := if synced then |before| else 0;
      RecordsMore(size, megabytes, path, committed, rs, part);
      HeaderLength(size, megabytes, path, PRecords(committed + rs, part));
      CommitPrefix(content, pos, size, pos, megabytes, path, PRecords(committed + rs, part));
    }

    /** The commit of what was appended; if it lands, the committed records grow. */
    method CommitSync(lands: bool, ghost rs: seq<Record>, ghost part: seq<byte>) returns (ok: bool)
      requires journal != null && CommittedOk() && torn == [] && PartOfCover(part)
      requires journal.Written() == journal.safe + PRecords(rs, part)
      modifies journal, `synced, `committed, `torn
      ensures CommittedOk() && ok == lands && journal.room == old(journal.room)
      ensures ok ==> synced && committed == old(committed) + rs && torn == part && journal.pos == |journal.safe|
      ensures !ok ==> synced == old(synced) && committed == old(committed) && torn == old(torn) && journal.safe == old(journal.safe)
    {
      hide PHeader, PRecords, LE64, PartOfCover;
      CommittedBytes(journal.safe, journal.content, rs, part, journal.pos);
      ok := journal.Commit(journal.pos, lands);
      if ok { synced, committed, torn := true, committed + rs, part; }
    }

    /** Everything a sync appends. The failure of the cover goes unnoticed. */
    method AppendSync(ghost states: seq<TrackState>) returns (ok: bool, whole: bool, ghost got: Option<(u32, seq<byte>)>, ghost part: seq<byte>)
      requires journal != null && journal.Valid() && journal.pos == |journal.safe| && TracksOk() && CoverOk()
      requires SyncedUpTo(states, 0) && AllInRange(states)
      modifies journal, `metaWritten, `coverWritten, tracks`writtenTimes, tracks`writtenSyncs, tracks`writtenChunkMap
      modifies tracks`writtenSamples, tracks`writtenChunks, tracks`metaWritten, tracks`infoWritten
      ensures journal.Valid() && journal.safe == old(journal.safe) && TracksOk() && PartOfCover(part)
      ensures metaWritten == old(metaWritten) || metaWritten == |metas| + 1
      ensures ok ==> SyncedUpTo(states, |states|) && metaWritten == |metas| + 1
      ensures ok ==> journal.Written() == journal.safe + PRecords(SyncRecords(states, metas, old(metaWritten), got), part)
      ensures ok ==> (got.Some? ==> got == cover && part == [])
      ensures ok && (cover.None? || old(coverWritten)) ==> got.None? && part == []
      ensures ok ==> (whole <==> got.Some? || cover.None? || old(coverWritten))
      ensures ok ==> !AnyUndescribed(states) && (!whole ==> journal.room == 0)
      ensures !ok ==> journal.room == 0 || AnyUndescribed(states)
    {
      hide TracksOk, AllInRange, SyncRecords, PRecords, SyncedUpTo, Track.State, PartOfCover, AnyUndescribed;
      NothingOfCover();
      whole, got, part := false, None, [];
      ghost var safe, rs := journal.safe, SyncRecords(states, metas, metaWritten, None);
      assert journal.Written() == safe;
      ok := SyncTables(states, safe + PRecords(rs, []), []);
      if !ok { return; }
      assert journal.Written() + [] == journal.Written();
      whole, got, part := SyncCover();
      CoverAppended(safe, states, metas, old(metaWritten), got, part);
    }

    static lemma CoverAppended(safe: seq<byte>, states: seq<TrackState>, ms: seq<Meta>, written: nat,
                               got: Option<(u32, seq<byte>)>, part: seq<byte>)
      requires AllInRange(states)
      ensures safe + PRecords(SyncRecords(states, ms, written, None), []) + PRecords(CoverRecords(got), part) ==
              safe + PRecords(SyncRecords(states, ms, written, got), part)
    {
      hide SyncRecords, PRecords, CoverRecords;
      CoverLast(states, ms, written, got, part);
      RecordsTail(SyncRecords(states, ms, written, None), [], PRecords(CoverRecords(got), part));
      assert [] + PRecords(CoverRecords(got), part) == PRecords(CoverRecords(got), part);
    }

    /** The tables of the tracks are as they were. */
    twostate predicate SameSamples()
      reads `byHandle, byHandle
    {
      && byHandle == old(byHandle)
      && forall h :: 0 <= h < |byHandle| ==>
           && byHandle[h].samples == old(byHandle[h].samples) && byHandle[h].payloads == old(byHandle[h].payloads)
           && byHandle[h].chunks == old(byHandle[h].chunks) && byHandle[h].syncs == old(byHandle[h].syncs)
    }

    /** Moving counters loses no sample. */
    twostate lemma CountedDataSafe()
      requires old(DataSafe(file.pos)) && SameSamples() && unchanged(file)
      ensures DataSafe(file.pos)
    {
      hide Stored, Growing, Apart;
    }

    twostate lemma CountedPrefixOk()
      requires old(PrefixOk()) && SameSamples() && log == old(log)
      ensures PrefixOk()
    {
      forall h | 0 <= h < |byHandle| ensures Begun(h) {
        assert old(Begun(h));
      }
    }

    /** The log after a sync that was committed. */
    ghost method NoteSync(states: seq<TrackState>, got: Option<(u32, seq<byte>)>, r: Option<Log>, missed: bool)
      requires journal != null && CommittedOk() && journal.pos == |journal.safe| && (torn == [] || missed)
      requires TracksOk() && SyncedUpTo(states, |states|)
      requires intact ==> ApplyAll(committed, EMPTY_LOG) == r && Replayed(states, log, metaWritten, got, r)
      modifies `log, `intact, `ended
      ensures JournalOk() && LogOk() && ended == missed && intact == (old(intact) && r.Some?)
      ensures intact ==> |log.tracks| == |byHandle| && forall h :: 0 <= h < |byHandle| ==> Complete(h)
      ensures intact ==> Some(log) == r && (!stale ==> log.metas == ClipMetas(metas))
      ensures intact ==> ConfigsLogged(states, old(log), log) && log.cover == if got.Some? then got else old(log).cover
    {
      hide TracksOk, CommittedOk, SyncedUpTo, Captured, FileMetasInStep, Complete, StepsOk, PrefixOk, Apply, Replayable, ConfigsLogged;
      ghost var before := log;
      ended := missed;
      if intact && r.Some? {
        log := r.value;
        SyncedSteps(states, before);
        SyncedComplete(states, before);
        CapturedConfigs(states, before, log);
        SameTracks();
        SameLength(tracks, byHandle);
      } else {
        intact := false;
      }
    }

    twostate predicate JournalKept()
      reads `synced, `committed, `torn, `log, `intact, journal
    {
      && synced == old(synced) && committed == old(committed) && torn == old(torn) && log == old(log) && intact == old(intact)
      && (journal != null ==> journal.safe == old(journal.safe))
    }

    lemma JournalIsValid()
      requires CommittedOk()
      ensures journal != null ==> journal.Valid()
    {
      hide PHeader, PRecords, PartOfCover;
    }

    lemma StatesSynced(states: seq<TrackState>)
      requires states == States(tracks)
      ensures SyncedUpTo(states, 0)
    {
    }

    twostate lemma CommittedKept()
      requires old(CommittedOk()) && journal != null && journal.Valid() && journal.safe == old(journal.safe)
      requires synced == old(synced) && committed == old(committed) && torn == old(torn)
      ensures CommittedOk()
    {
      hide PHeader, PRecords, PartOfCover;
    }

    /** What can be known of the replay before the sync is written, whatever becomes of the cover. */
    lemma SyncForeseen(states: seq<TrackState>)
      requires journal != null && !ended && JournalOk() && LogOk() && TracksOk() && SyncedUpTo(states, 0)
      ensures AllInRange(states)
      ensures intact ==> Foreseen(states, metaWritten, committed, log, None) && Foreseen(states, metaWritten, committed, log, cover)
    {
      hide TracksOk, CommittedOk, SyncedUpTo, StepsOk, ApplyAll, Replayed, SyncLoggable, SyncRecords;
      StatesInRange(states);
      if intact {
        LogAfterSync(states, metaWritten, None);
        LogAfterSync(states, metaWritten, cover);
      }
    }

    ghost predicate Foreseen(states: seq<TrackState>, written: nat, earlier: seq<Record>, before: Log, got: Option<(u32, seq<byte>)>)
      requires AllInRange(states)
      reads `tracks, `metas, `stale
    {
      var rs := SyncRecords(states, metas, written, got);
      var r := ApplyAll(earlier + rs, EMPTY_LOG);
      && (r.Some? <==> SyncLoggable(states, metas, written, got))
      && Replayed(states, before, |metas| + 1, got, r)
    }

    /** What a completed sync leaves: the new records are committed, and if they can be replayed the log has everything. */
    twostate predicate SyncDone(states: seq<TrackState>, new got: Option<(u32, seq<byte>)>)
      reads this, byHandle, tracks
    {
      && states == old(States(tracks)) && AllInRange(states) && synced && (got.Some? ==> got == cover)
      && committed == old(committed) + SyncRecords(states, metas, old(metaWritten), got)
      && (intact <==> old(intact) && SyncLoggable(states, metas, old(metaWritten), got))
      && (intact ==> |log.tracks| == |byHandle| && forall h :: 0 <= h < |byHandle| ==> Complete(h))
      && (intact && !stale ==> log.metas == ClipMetas(metas))
      && (intact ==> ConfigsLogged(states, old(log), log) && log.cover == if got.Some? then got else old(log).cover)
      && (got.Some? || old(cover.None? || coverWritten) ==> !ended)
    }

    lemma ForeseenFor(states: seq<TrackState>, written: nat, earlier: seq<Record>, before: Log, got: Option<(u32, seq<byte>)>)
      requires AllInRange(states) && (got.Some? ==> got == cover)
      requires Foreseen(states, written, earlier, before, None) && Foreseen(states, written, earlier, before, cover)
      ensures var r := ApplyAll(earlier + SyncRecords(states, metas, written, got), EMPTY_LOG);
              && (r.Some? <==> SyncLoggable(states, metas, written, got))
              && Replayed(states, before, |metas| + 1, got, r)
    {
      hide SyncRecords, SyncLoggable, Replayed, AllInRange, Apply, Replayable;
    }

    /** The commit of a sync whose records were all appended. */
    method FinishSync(lands: bool, ghost states: seq<TrackState>, ghost written: nat, ghost got: Option<(u32, seq<byte>)>,
                      ghost part: seq<byte>, ghost missed: bool) returns (ok: bool)
      requires journal != null && CommittedOk() && torn == [] && PartOfCover(part) && (part == [] || missed)
      requires AllInRange(states) && TracksOk() && SyncedUpTo(states, |states|) && metaWritten == |metas| + 1
      requires journal.Written() == journal.safe + PRecords(SyncRecords(states, metas, written, got), part)
      requires intact ==> ApplyAll(committed, EMPTY_LOG) == Some(log)
      requires intact ==> Foreseen(states, written, committed, log, None) && Foreseen(states, written, committed, log, cover)
      requires got.Some? ==> got == cover
      modifies journal, `synced, `committed, `torn, `log, `intact, `ended
      ensures JournalOk() && ok == lands && journal.room == old(journal.room)
      ensures !ok ==> JournalKept() && ended
      ensures ok ==> LogOk() && synced && committed == old(committed) + SyncRecords(states, metas, written, got) && ended == missed
      ensures ok ==> (intact <==> old(intact) && SyncLoggable(states, metas, written, got))
      ensures ok && intact ==> |log.tracks| == |byHandle| && forall h :: 0 <= h < |byHandle| ==> Complete(h)
      ensures ok && intact && !stale ==> log.metas == ClipMetas(metas)
      ensures ok && intact ==> ConfigsLogged(states, old(log), log) && log.cover == if got.Some? then got else old(log).cover
    {
      hide TracksOk, StepsOk, PrefixOk, AllInRange, SyncRecords, SyncLoggable, PRecords, Complete, SyncedUpTo;
      hide Track.State, CommittedOk, Replayed, Apply, Replayable, Foreseen, ConfigsLogged;
      ghost var rs, earlier, before := SyncRecords(states, metas, written, got), committed, log;
      ok := CommitSync(lands, rs, part);
      if !ok {
        ended := true;
        return;
      }
      if intact { ForeseenFor(states, written, earlier, before, got); }
      NoteSync(states, got, ApplyAll(earlier + rs, EMPTY_LOG), missed);
    }

    /** Append and commit. */
    method WriteSync(lands: bool, ghost states: seq<TrackState>) returns (ok: bool, whole: bool, ghost got: Option<(u32, seq<byte>)>)
      requires journal != null && !ended && TracksOk() && JournalOk() && LogOk() && CoverOk()
      requires states == States(tracks)
      modifies journal, `metaWritten, `coverWritten, `synced, `committed, `torn, `log, `intact, `ended
      modifies tracks`writtenTimes, tracks`writtenSyncs, tracks`writtenChunkMap, tracks`writtenSamples
      modifies tracks`writtenChunks, tracks`metaWritten, tracks`infoWritten
      ensures TracksOk() && JournalOk()
      ensures metaWritten == old(metaWritten) || metaWritten == |metas| + 1
      ensures ok ==> lands && LogOk() && SyncDone(states, got)
      ensures !ok ==> JournalKept() && ended
      ensures ended <==> !ok || !whole
      ensures ok ==> !AnyUndescribed(states) && (!whole ==> journal.room == 0)
      ensures !ok ==> !lands || journal.room == 0 || AnyUndescribed(states)
    {
      hide TracksOk, AllInRange, SyncRecords, SyncLoggable, PRecords, Complete, SyncedUpTo, LogOk;
      hide AnyUndescribed, ConfigsLogged;
      hide Track.State, CommittedOk, Apply, Replayable, Foreseen, PartOfCover;
      StatesSynced(states);
      SyncForeseen(states);
      JournalIsValid();
      ghost var written, missed := metaWritten, cover.Some? && !coverWritten;
      ghost var part;
      ok, whole, got, part := AppendSync(states);
      CommittedKept();
      if !ok {
        ended := true;
        return;
      }
      ok := FinishSync(lands, states, written, got, part, missed && got.None?);
    }

    /**
     A sync: what is new since the last one is appended to the journal, and then
     committed. `got` is the cover, if there was one to be written and it was; when it
     was written in part, the source does not notice, and `whole` is for the proof only.
     */
    method IncrementalSync(lands: bool) returns (ok: bool, whole: bool, ghost states: seq<TrackState>, ghost got: Option<(u32, seq<byte>)>)
      requires Valid() && journal != null && !ended
      modifies journal, `metaWritten, `coverWritten, `synced, `committed, `torn, `log, `intact, `ended
      modifies tracks`writtenTimes, tracks`writtenSyncs, tracks`writtenChunkMap, tracks`writtenSamples
      modifies tracks`writtenChunks, tracks`metaWritten, tracks`infoWritten
      ensures Valid()
      ensures !ok ==> ended && JournalKept()
      ensures ok ==> lands && SyncDone(states, got)
      ensures ended <==> !ok || !whole
      ensures states == old(States(tracks)) && (ok ==> !AnyUndescribed(states) && (!whole ==> journal.room == 0))
      ensures !ok ==> !lands || journal.room == 0 || AnyUndescribed(states)
    {
      hide TracksOk, DataSafe, StepsOk, PrefixOk, CommittedOk, GoodMetas, SyncDone, ApplyAll, Track.State, States, AnyUndescribed;
      states := States(tracks);
      ok, whole, got := WriteSync(lands, states);
      CountedDataSafe();
      if !ok && intact { CountedPrefixOk(); }
    }
  }
}
