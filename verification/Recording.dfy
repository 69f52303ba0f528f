/**
 A recording from start to end: opening the files, syncing, closing, and what holds
 after any sequence of operations and any failure of the devices.
 */
module Recording {
  import opened Bytes
  import opened Wrappers
  import opened MuxFile
  import opened DataSafety
  import opened JournalFile
  import opened Mux
  import opened MuxSync
  import opened MuxTrack
  import opened TimeTable
  import B = BoxTree
  import L = FileLayout
  import M = Movie
  import opened Script
  import J = JournalFormat
  import R = JournalReplay
  import K = Metadata

  lemma KeptThrough(c: seq<byte>, d: seq<byte>, e: seq<byte>, lo: int, hi: int, lo': int, hi': int, lo'': int, hi'': int)
    requires KeptOutside(c, d, lo, hi) && KeptOutside(d, e, lo', hi')
    requires lo'' <= lo && lo'' <= lo' && hi <= hi'' && hi' <= hi''
    ensures KeptOutside(c, e, lo'', hi'')
  {
  }

  /** Brands, a free box over the reserved area, and the header of empty media data. */
  method WriteStart(file: DataFile, base: nat) returns (ok: bool)
    requires file.Valid() && file.pos == 0 && 40 <= base < TWO32
    modifies file
    ensures file.Valid() && KeptOutside(old(file.content), file.content, 0, base + 16)
    ensures |file.content| <= Max(|old(file.content)|, base + 16)
    ensures ok ==> Titled(file.content) && |file.content| >= base + 16 && file.pos == base + 16
    ensures old(file.grants) == [] ==> ok && file.grants == []
  {
    hide KeptOutside, Overwrite, WordBytes, MdatWords;
    ghost var c0 := file.content;
    ok := file.WriteFtyp();
    ghost var c1 := file.content;
    KeptSelf(c1);
    KeptThrough(c0, c1, c1, 0, 32, 0, 0, 0, base + 16);
    if !ok { return; }
    Title(c0, c1);
    ok := file.WriteFree(base - 32, base);
    ghost var c2 := file.content;
    KeptThrough(c0, c1, c2, 0, 32, 32, 40, 0, base + 16);
    TitleKept(c1, c2, 32, 40);
    if !ok { return; }
    file.SeekTo(base);
    ok := file.WriteMdat(0);
    ghost var c3 := file.content;
    KeptThrough(c0, c2, c3, 0, base + 16, base, base + 16, 0, base + 16);
    TitleKept(c2, c3, base, base + 16);
    if ok { LongEnough(c2, base, WordBytes(MdatWords(0)), c3); }
  }

  lemma KeptSelf(c: seq<byte>)
    ensures KeptOutside(c, c, 0, 0)
  {
  }

  lemma Title(c: seq<byte>, d: seq<byte>)
    requires d == Overwrite(c, 0, WordBytes(FTYP_WORDS))
    ensures Titled(d)
  {
    L.FtypBytes();
  }

  lemma LongEnough(c: seq<byte>, at: nat, b: seq<byte>, d: seq<byte>)
    requires d == Overwrite(c, at, b) && |b| == 16
    ensures |d| >= at + 16
  {
  }

  /** A path longer than this is refused. */
  const PATH_MAX: nat := 4096

  /**
     Opens a recording on a file that may have content already: everything past the
     header of the media data is kept.
  */
  method Open(timescale: u32, megabytes: u32, path: seq<byte>, file: DataFile, journal: TablesFile?) returns (r: Option<Mux>)
    requires megabytes < 4096
    requires file.Valid() && file.pos == 0
    requires journal != null ==> journal.Valid() && journal.pos == 0 && journal.safe == []
    modifies file, journal
    ensures file.Valid() && KeptOutside(old(file.content), file.content, 0, megabytes * 1024 * 1024 + 16)
    ensures |file.content| <= Max(|old(file.content)|, megabytes * 1024 * 1024 + 16)
    ensures r.Some? ==>
              && var m := r.value;
              && 0 < |path| < PATH_MAX && 0 < megabytes
              && fresh(m) && m.Valid() && m.file == file && m.journal == journal && m.megabytes == megabytes && m.path == path
              && m.byHandle == [] && !m.ended && m.intact && !m.stale && m.log == R.EMPTY_LOG && m.committed == [] && !m.synced
              && m.timescale == timescale && !m.maxReached && m.cover.None? && m.metas == [] && m.metaWritten == 0
    ensures old(file.grants) == [] && (journal == null || old(journal.room) >= 32 + |path|) && 0 < |path| < PATH_MAX && 0 < megabytes ==> r.Some?
    ensures old(file.grants) == [] && r.Some? ==> file.grants == []
  {
    hide KeptOutside, PHeader, Mux.Valid, Titled;
    KeptSelf(file.content);
    KeptThrough(file.content, file.content, file.content, 0, 0, 0, 0, 0, megabytes * 1024 * 1024 + 16);
    if |path| == 0 || |path| >= PATH_MAX || megabytes == 0 { return None; }
    var ok := WriteStart(file, megabytes * 1024 * 1024);
    if !ok { return None; }
    if journal != null {
      ok := journal.WriteHeader(megabytes, path);
      if !ok { return None; }
    }
    var m := new Mux(timescale, megabytes, path, file, journal);
    NewRecordingValid(m);
    return Some(m);
  }

  /** A recording with nothing in it. */
  lemma NewRecordingValid(m: Mux)
    requires m.tracks == m.byHandle == [] && m.metas == [] && m.metaWritten == 0 && m.cover.None?
    requires m.committed == [] && m.torn == [] && m.log == R.EMPTY_LOG && m.intact && !m.stale && !m.ended && !m.synced
    requires 0 < m.megabytes < 4096 && m.file.Valid() && m.file.pos == m.Base() + 16 <= |m.file.content| && Titled(m.file.content)
    requires m.journal != null ==>
               m.journal.Valid() && m.journal.Written() == m.journal.safe == PHeader(0, m.megabytes, m.path, [])
    ensures m.Valid()
  {
    hide PHeader, PartOfCover;
    NothingOfCover();
    NoRecords();
  }

  lemma NoRecords()
    ensures J.PRecords([], []) == [] && R.ApplyAll([], R.EMPTY_LOG) == Some(R.EMPTY_LOG)
  {
  }

  // ---------- syncing and closing ----------

  /** What a sync of the journal finds: the tracks by handle and the metadata of the file; `got` is the cover, if it was written. */
  datatype Snapshot = Snapshot(states: seq<R.TrackState>, metas: seq<K.Meta>, metaWritten: nat, stale: bool, got: Option<(u32, seq<byte>)>)

  const NOTHING := Snapshot([], [], 0, false, None)

  ghost function Snap(mux: Mux): Snapshot
    reads mux, mux.byHandle
  {
    Snapshot(Mux.States(mux.byHandle), mux.metas, mux.metaWritten, mux.stale, None)
  }

  /** Every record of the sync is within the limits of the reader. */
  predicate Loggable(s: Snapshot)
  {
    R.AllInRange(s.states) && R.SyncLoggable(s.states, s.metas, s.metaWritten, s.got)
  }

  /** What the journal holds: what the last sync found, the configurations when the descriptions were last written, and the last cover. */
  datatype Kept = Kept(last: Snapshot, configs: seq<J.Config>, cover: Option<(u32, seq<byte>)>)

  const NOTHING_KEPT := Kept(NOTHING, [], None)

  /** A description is written once, and again when the track refers to another one. */
  function Described(configs: seq<J.Config>, states: seq<R.TrackState>): (d: seq<J.Config>)
    ensures |d| == |states|
  {
    seq(|states|, h requires 0 <= h < |states| =>
      if states[h].infoWritten && h < |configs| then configs[h] else R.ClipConfig(states[h].info.kind, states[h].config))
  }

  function KeptAfter(k: Kept, s: Snapshot): Kept
  {
    Kept(s, Described(k.configs, s.states), if s.got.Some? then s.got else k.cover)
  }

  /** A log that has all of this. File metadata is stale when an entry already written was overridden. */
  ghost predicate LogIs(log: R.Log, k: Kept)
  {
    && |log.tracks| == |k.last.states| == |k.configs|
    && (forall h :: 0 <= h < |k.last.states| ==> TrackLogIs(log.tracks[h], k.last.states[h], k.configs[h]))
    && (!k.last.stale ==> log.metas == R.ClipMetas(k.last.metas))
    && log.cover == k.cover
  }

  ghost predicate TrackLogIs(c: R.TrackLog, s: R.TrackState, config: J.Config)
  {
    && c.info == R.ClipInfo(s.info) && c.refs == R.RefBytes(s.refs) && c.config == config
    && c.samples == s.samples && c.chunks == s.chunks
    && (s.samples != [] ==> c.syncs == s.syncs && c.metas == R.ClipMetas(s.metas))
  }

  /** The sync itself; only counters of the tracks change. */
  method SyncOnce(mux: Mux, lands: bool) returns (ok: bool, whole: bool, ghost listed: seq<R.TrackState>, ghost got: Option<(u32, seq<byte>)>)
    requires mux.Valid() && mux.journal != null && !mux.ended
    modifies mux.journal, mux`metaWritten, mux`coverWritten, mux`synced, mux`committed, mux`torn, mux`log, mux`intact, mux`ended
    modifies mux.tracks`writtenTimes, mux.tracks`writtenSyncs, mux.tracks`writtenChunkMap, mux.tracks`writtenSamples
    modifies mux.tracks`writtenChunks, mux.tracks`metaWritten, mux.tracks`infoWritten
    ensures mux.Valid() && SameTables(mux)
    ensures !ok ==> mux.ended && mux.JournalKept()
    ensures mux.ended <==> !ok || !whole
    ensures listed == old(Mux.States(mux.tracks)) && (ok ==> lands && mux.SyncDone(listed, got) && !R.AnyUndescribed(listed))
    ensures !ok ==> !lands || mux.journal.room == 0 || R.AnyUndescribed(listed)
    ensures !whole && ok ==> mux.journal.room == 0
  {
    hide Mux.Valid, Mux.SyncDone, Mux.JournalKept, Mux.States, R.AnyUndescribed, R.InRange, R.AllInRange, Mux.Complete, Track.State;
    ok, whole, listed, got := mux.IncrementalSync(lands);
  }

  /** The journal part: what a completed sync has put in the log is what the tracks had. */
  method SyncJournal(mux: Mux, lands: bool, ghost k: Kept) returns (ok: bool, whole: bool, ghost snap: Snapshot)
    requires mux.Valid() && mux.journal != null && !mux.ended && (mux.intact ==> LogIs(mux.log, k))
    modifies mux.journal, mux`metaWritten, mux`coverWritten, mux`synced, mux`committed, mux`torn, mux`log, mux`intact, mux`ended
    modifies mux.tracks`writtenTimes, mux.tracks`writtenSyncs, mux.tracks`writtenChunkMap, mux.tracks`writtenSamples
    modifies mux.tracks`writtenChunks, mux.tracks`metaWritten, mux.tracks`infoWritten
    ensures mux.Valid() && SameTables(mux)
    ensures !ok ==> mux.ended && mux.JournalKept()
    ensures mux.ended <==> !ok || !whole
    ensures snap == old(Snap(mux)).(got := snap.got) && (snap.got.Some? ==> snap.got == mux.cover)
    ensures ok ==> lands && mux.synced && Sortable(mux) && !R.AnyUndescribed(snap.states)
    ensures ok ==> (mux.intact <==> old(mux.intact) && Loggable(snap))
    ensures ok && mux.intact ==> LogIs(mux.log, KeptAfter(k, snap))
    ensures !ok || !whole ==> !lands || mux.journal.room == 0 || R.AnyUndescribed(snap.states)
  {
    hide Mux.Valid, Mux.SyncDone, Mux.JournalKept, LogIs, Loggable, R.AnyUndescribed, KeptAfter, SameTables, Sortable, Mux.States, R.AllLoggable, R.AllInRange;
    ValidTracksOk(mux);
    OrderIsNoMatter(mux);
    if mux.intact { LoggedTracks(mux, k); }
    ghost var before := Snap(mux);
    ghost var listed, got;
    ok, whole, listed, got := SyncOnce(mux, lands);
    snap := before.(got := if ok then got else None);
    if ok {
      DoneLimits(mux, listed, got, before);
      DoneLogIs(mux, listed, got, k);
    }
  }

  lemma ValidTracksOk(mux: Mux)
    requires mux.Valid()
    ensures mux.TracksOk()
  {
    hide Mux.TracksOk, Mux.MetasOk, Mux.DataSafe, Mux.JournalOk, Mux.LogOk;
  }

  /** The sync kept the journal replayable exactly when it was within the limits of the reader. */
  twostate lemma DoneLimits(mux: Mux, new listed: seq<R.TrackState>, new got: Option<(u32, seq<byte>)>, new before: Snapshot)
    requires mux.SyncDone(listed, got) && before == old(Snap(mux)) && mux.metas == old(mux.metas)
    requires R.AllInRange(listed) && R.AllInRange(before.states) && (R.AllLoggable(listed) <==> R.AllLoggable(before.states))
    ensures mux.intact <==> old(mux.intact) && Loggable(before.(got := got))
    ensures got.Some? ==> got == mux.cover
  {
    hide R.AllLoggable, R.LoggableMetas, R.SyncRecords, Mux.ConfigsLogged;
  }

  /** What samples there are, and what is known of the tracks, is as it was. */
  twostate predicate SameTables(mux: Mux)
    reads mux`byHandle, mux`tracks, mux.byHandle
  {
    && mux.byHandle == old(mux.byHandle) && mux.tracks == old(mux.tracks)
    && forall h :: 0 <= h < |mux.byHandle| ==>
         && mux.byHandle[h].samples == old(mux.byHandle[h].samples) && mux.byHandle[h].chunks == old(mux.byHandle[h].chunks)
         && mux.byHandle[h].syncs == old(mux.byHandle[h].syncs) && mux.byHandle[h].metas == old(mux.byHandle[h].metas)
         && mux.byHandle[h].refs == old(mux.byHandle[h].refs) && mux.byHandle[h].payloads == old(mux.byHandle[h].payloads)
         && mux.byHandle[h].config == old(mux.byHandle[h].config) && mux.byHandle[h].live == old(mux.byHandle[h].live)
         && mux.byHandle[h].lastDts == old(mux.byHandle[h].lastDts)
  }

  lemma SameStates(listed: seq<R.TrackState>, states: seq<R.TrackState>)
    requires forall i :: 0 <= i < |listed| ==> R.InRange(listed[i]) && listed[i] in states
    requires forall h :: 0 <= h < |states| ==> states[h] in listed
    ensures R.AllInRange(listed) && R.AllInRange(states)
    ensures R.AllLoggable(listed) <==> R.AllLoggable(states)
    ensures R.AnyUndescribed(listed) <==> R.AnyUndescribed(states)
  {
    hide R.InRange, R.Loggable, R.Undescribed;
    forall h | 0 <= h < |states| ensures R.InRange(states[h]) {
      var i :| 0 <= i < |listed| && listed[i] == states[h];
    }
    if R.AnyUndescribed(listed) {
      var i :| 0 <= i < |listed| && R.Undescribed(listed[i]);
      var h :| 0 <= h < |states| && states[h] == listed[i];
      assert R.Undescribed(states[h]);
    }
    if R.AnyUndescribed(states) {
      var h :| 0 <= h < |states| && R.Undescribed(states[h]);
      var i :| 0 <= i < |listed| && listed[i] == states[h];
      assert R.Undescribed(listed[i]);
    }
  }

  /** The states in the order of the list are those by handle. */
  lemma ListedStates(mux: Mux)
    requires mux.TracksOk()
    ensures var listed, states := Mux.States(mux.tracks), Mux.States(mux.byHandle);
            forall i :: 0 <= i < |listed| ==> R.InRange(listed[i]) && listed[i] in states
  {
    hide Track.Valid, Mux.TracksOk, R.InRange, Track.State, Mux.HandlesOk, Permuted;
    var listed, states := Mux.States(mux.tracks), Mux.States(mux.byHandle);
    forall i | 0 <= i < |listed| ensures R.InRange(listed[i]) && listed[i] in states {
      mux.TrackSyncable(i);
      assert listed[i] == states[mux.tracks[i].handle - 1];
    }
  }

  lemma StatesListed(mux: Mux)
    requires mux.TracksOk()
    ensures var listed, states := Mux.States(mux.tracks), Mux.States(mux.byHandle);
            forall h :: 0 <= h < |states| ==> states[h].handle == h + 1 && states[h] in listed
  {
    hide Track.Valid, Mux.TracksOk, Track.State, Mux.HandlesOk;
    var listed, states := Mux.States(mux.tracks), Mux.States(mux.byHandle);
    mux.SameTracks();
    forall h | 0 <= h < |states| ensures states[h].handle == h + 1 && states[h] in listed {
      assert mux.byHandle[h] in mux.tracks;
      var i :| 0 <= i < |mux.tracks| && mux.tracks[i] == mux.byHandle[h];
      HandleAt(mux, h);
      assert listed[i] == states[h];
    }
  }

  /** The order in which a sync goes through the tracks is no matter for its limits. */
  lemma OrderIsNoMatter(mux: Mux)
    requires mux.TracksOk()
    ensures var listed, states := Mux.States(mux.tracks), Mux.States(mux.byHandle);
            && R.AllInRange(listed) && R.AllInRange(states)
            && (R.AllLoggable(listed) <==> R.AllLoggable(states))
            && (R.AnyUndescribed(listed) <==> R.AnyUndescribed(states))
            && forall h :: 0 <= h < |states| ==> states[h].handle == h + 1 && states[h] in listed
  {
    hide Mux.TracksOk, R.InRange, R.AllLoggable, R.AnyUndescribed, R.AllInRange, Mux.States;
    ListedStates(mux);
    StatesListed(mux);
    SameStates(Mux.States(mux.tracks), Mux.States(mux.byHandle));
  }

  lemma HandleAt(mux: Mux, h: nat)
    requires mux.TracksOk() && h < |mux.byHandle|
    ensures mux.byHandle[h].handle == h + 1 && mux.byHandle[h].State().handle == h + 1
  {
    hide Track.Valid;
  }

  lemma ConfigsByHandle(listed: seq<R.TrackState>, states: seq<R.TrackState>, before: R.Log, after: R.Log, k: Kept)
    requires Mux.ConfigsLogged(listed, before, after) && |before.tracks| == |k.configs| <= |states|
    requires forall h :: 0 <= h < |k.configs| ==> before.tracks[h].config == k.configs[h]
    requires forall h :: 0 <= h < |states| ==> states[h].handle == h + 1 && states[h] in listed
    ensures |states| <= |after.tracks|
    ensures forall h :: 0 <= h < |states| ==> after.tracks[h].config == Described(k.configs, states)[h]
  {
    hide R.ClipConfig;
    if states != [] {
      var i :| 0 <= i < |listed| && listed[i] == states[|states| - 1];
      assert |states| <= |after.tracks|;
    }
    forall h | 0 <= h < |states| ensures after.tracks[h].config == Described(k.configs, states)[h] {
      var i :| 0 <= i < |listed| && listed[i] == states[h];
    }
  }

  twostate lemma DoneLogIs(mux: Mux, new listed: seq<R.TrackState>, new got: Option<(u32, seq<byte>)>, new k: Kept)
    requires mux.SyncDone(listed, got) && SameTables(mux) && mux.Valid() && mux.metas == old(mux.metas) && mux.stale == old(mux.stale)
    requires old(mux.intact) ==> old(LogIs(mux.log, k) && |k.configs| <= |mux.byHandle|)
    requires var states := old(Mux.States(mux.byHandle));
             forall h :: 0 <= h < |states| ==> states[h].handle == h + 1 && states[h] in listed
    ensures mux.intact ==> LogIs(mux.log, KeptAfter(k, old(Snap(mux)).(got := got)))
    ensures Sortable(mux) && mux.synced
  {
    hide Mux.DataSafe, Mux.MetasOk, Mux.JournalOk, Mux.LogOk, R.RefBytes, R.ClipInfo, R.ClipMetas, Track.Valid, R.SyncLoggable, R.SyncRecords;
    hide Mux.ConfigsLogged, Described;
    mux.SameTracks();
    if mux.intact {
      ghost var states := old(Mux.States(mux.byHandle));
      ConfigsByHandle(listed, states, old(mux.log), mux.log, k);
      forall h | 0 <= h < |mux.byHandle| ensures TrackLogIs(mux.log.tracks[h], states[h], Described(k.configs, states)[h]) {
        assert mux.Complete(h);
      }
    }
  }

  lemma LoggedTracks(mux: Mux, k: Kept)
    requires mux.Valid() && mux.journal != null && mux.intact && LogIs(mux.log, k)
    ensures |k.configs| <= |mux.byHandle|
  {
    hide Mux.TracksOk, Mux.MetasOk, Mux.DataSafe, Mux.JournalOk, Mux.StepsOk, TrackLogIs;
  }

  /** The samples and the bytes of the tracks are as they were. */
  twostate predicate SameByHandle(mux: Mux)
    reads mux`byHandle, mux.byHandle
  {
    && mux.byHandle == old(mux.byHandle)
    && forall h :: 0 <= h < |mux.byHandle| ==>
         && mux.byHandle[h].samples == old(mux.byHandle[h].samples) && mux.byHandle[h].chunks == old(mux.byHandle[h].chunks)
         && mux.byHandle[h].syncs == old(mux.byHandle[h].syncs) && mux.byHandle[h].payloads == old(mux.byHandle[h].payloads)
         && mux.byHandle[h].live == old(mux.byHandle[h].live)
  }

  twostate lemma StillWithinLimits(mux: Mux)
    requires old(WithinLimits(mux)) && SameByHandle(mux)
    ensures WithinLimits(mux)
  {
  }

  lemma NoJournalSortable(mux: Mux)
    requires mux.journal == null
    ensures Sortable(mux)
  {
  }

  // ---------- what a recording contains ----------

  ghost function ContentOfTrack(t: Track): TrackContent
    reads t`refs, t`config, t`metas, t`samples, t`syncs, t`payloads, t`lastDts
  {
    TrackContent(t.info, t.refs, t.config, t.metas, t.samples, t.syncs, t.payloads, t.lastDts)
  }

  ghost function TracksOf(ts: seq<Track>): (c: seq<TrackContent>)
    ensures |c| == |ts| && forall h :: 0 <= h < |ts| ==> c[h] == ContentOfTrack(ts[h])
    reads ts
  {
    seq(|ts|, h requires 0 <= h < |ts| reads ts => ContentOfTrack(ts[h]))
  }

  ghost function ContentOf(mux: Mux): Content
    reads mux`byHandle, mux`metas, mux`cover, mux.byHandle
  {
    Content(TracksOf(mux.byHandle), mux.metas, mux.cover)
  }

  /** What a sync leaves alone in a track. */
  datatype Facts = Facts(content: TrackContent, chunks: seq<u64>, live: bool)

  ghost function FactsOf(ts: seq<Track>): (f: seq<Facts>)
    ensures |f| == |ts| && forall h :: 0 <= h < |ts| ==> f[h] == Facts(ContentOfTrack(ts[h]), ts[h].chunks, ts[h].live)
    reads ts
  {
    seq(|ts|, h requires 0 <= h < |ts| reads ts => Facts(ContentOfTrack(ts[h]), ts[h].chunks, ts[h].live))
  }

  twostate lemma TablesAreFacts(mux: Mux)
    requires SameTables(mux)
    ensures FactsOf(mux.byHandle) == old(FactsOf(mux.byHandle))
  {
  }

  twostate lemma FactsStay(mux: Mux)
    requires mux.byHandle == old(mux.byHandle) && FactsOf(mux.byHandle) == old(FactsOf(mux.byHandle))
    ensures SameByHandle(mux) && TracksOf(mux.byHandle) == old(TracksOf(mux.byHandle))
  {
    forall h | 0 <= h < |mux.byHandle| ensures FactsOf(mux.byHandle)[h] == old(FactsOf(mux.byHandle))[h] {
    }
  }

  /** The part of a sync that goes to the media file; a movie box that could not be written for lack of a configuration counts as written. */
  method SyncToFile(mux: Mux, fixed: M.Fixed) returns (ok: bool)
    requires mux.Valid() && WithinLimits(mux) && Sortable(mux)
    modifies mux`tracks, mux`maxReached, mux.file
    modifies mux.tracks`id, mux.tracks`times, mux.tracks`duration, mux.tracks`durationMoov, mux.tracks`timed
    ensures mux.Valid() && FactsOf(mux.byHandle) == old(FactsOf(mux.byHandle))
    ensures old(mux.file.grants) == [] ==> mux.file.grants == []
  {
    hide Mux.Valid, WithinLimits, Sortable, ValidUpTo, AsIntended, Finished, RefreshedFrom, NoMovieBox;
    ValidAtPosition(mux);
    ghost var moov, tiled;
    var r;
    r, moov, tiled := SyncInternal(mux, fixed, false, mux.file.pos);
    ValidAtPosition(mux);
    return r.Written? || r.Unwritten? || r.Skipped?;
  }

  /** Whether a sync of the journal was completed, and what it found. */
  datatype Note = Note(journalled: bool, snap: Snapshot)

  /** Why a sync of the journal was the last: its commit did not land, the device is full, or a video track has no configuration. */
  ghost predicate Excused(lands: bool, note: Note, journal: TablesFile?)
    reads journal
  {
    journal != null && (!lands || journal.room == 0 || R.AnyUndescribed(note.snap.states))
  }

  /** The journal part of a sync on request, if there is a journal. */
  method SyncFirst(mux: Mux, lands: bool, ghost k: Kept) returns (ok: bool, over: bool, ghost note: Note)
    requires mux.Valid() && !mux.ended && (mux.journal != null && mux.intact ==> LogIs(mux.log, k))
    modifies mux.journal, mux`metaWritten, mux`coverWritten, mux`synced, mux`committed, mux`torn, mux`log, mux`intact, mux`ended
    modifies mux.tracks`writtenTimes, mux.tracks`writtenSyncs, mux.tracks`writtenChunkMap, mux.tracks`writtenSamples
    modifies mux.tracks`writtenChunks, mux.tracks`metaWritten, mux.tracks`infoWritten
    ensures mux.Valid() && (ok ==> Sortable(mux)) && FactsOf(mux.byHandle) == old(FactsOf(mux.byHandle))
    ensures note.snap == old(Snap(mux)).(got := note.snap.got) && (note.snap.got.Some? ==> note.snap.got == mux.cover)
    ensures note.journalled ==> mux.journal != null && mux.synced && !R.AnyUndescribed(note.snap.states)
    ensures mux.intact <==> old(mux.intact) && (note.journalled ==> Loggable(note.snap))
    ensures note.journalled && mux.intact ==> LogIs(mux.log, KeptAfter(k, note.snap))
    ensures !note.journalled ==> mux.JournalKept() && (mux.journal == null || mux.ended)
    ensures ok && mux.journal != null ==> note.journalled
    ensures over == mux.ended && (over ==> Excused(lands, note, mux.journal))
  {
    hide Mux.Valid, Sortable, LogIs, Mux.States, Loggable, R.AnyUndescribed, KeptAfter, SameTables;
    note := Note(false, Snap(mux));
    ok, over := true, false;
    if mux.journal != null {
      ghost var snap;
      var whole;
      ok, whole, snap := SyncJournal(mux, lands, k);
      TablesAreFacts(mux);
      note := Note(ok, snap);
      over := !ok || !whole;
    } else {
      NoJournalSortable(mux);
    }
  }

  /**
     A sync on request: the journal first, if there is one, then the tables of the
     media file. A journal that could not be written ends the recording. It stays
     replayable exactly when what it was given is within the limits of its reader.
  */
  method Sync(mux: Mux, writeTables: bool, lands: bool, fixed: M.Fixed, ghost k: Kept) returns (ok: bool, over: bool, ghost note: Note)
    requires mux.Valid() && WithinLimits(mux) && !mux.ended && (mux.journal != null && mux.intact ==> LogIs(mux.log, k))
    modifies mux, mux.tracks, mux.file, mux.journal
    ensures mux.Valid() && SameByHandle(mux)
    ensures note.snap == old(Snap(mux)).(got := note.snap.got) && (note.snap.got.Some? ==> note.snap.got == old(mux.cover))
    ensures note.journalled ==> mux.journal != null && mux.synced && !R.AnyUndescribed(note.snap.states)
    ensures mux.intact <==> old(mux.intact) && (note.journalled ==> Loggable(note.snap))
    ensures note.journalled && mux.intact ==> LogIs(mux.log, KeptAfter(k, note.snap))
    ensures !note.journalled ==> mux.JournalKept() && (mux.journal == null || mux.ended)
    ensures ok && mux.journal != null ==> note.journalled
    ensures over == mux.ended && (over ==> Excused(lands, note, mux.journal))
    ensures ContentOf(mux) == old(ContentOf(mux))
    ensures old(mux.file.grants) == [] ==> mux.file.grants == []
  {
    hide Mux.Valid, WithinLimits, Sortable, LogIs, Mux.States, Loggable, R.AnyUndescribed;
    hide KeptAfter, SameByHandle, FactsOf, TracksOf;
    ok, over, note := SyncFirst(mux, lands, k);
    FactsStay(mux);
    if !ok || !writeTables { return; }
    StillWithinLimits(mux);
    ok := SyncToFile(mux, fixed);
    FactsStay(mux);
  }

  /** Nothing more will be journalled: less is asked of the journal. */
  ghost method End(mux: Mux)
    requires mux.Valid()
    modifies mux`ended
    ensures mux.Valid() && Sortable(mux) && mux.ended
  {
    hide Mux.TracksOk, Mux.MetasOk, Mux.DataSafe, Mux.PrefixOk, Mux.StepsOk, Mux.CommittedOk, Mux.CoverOk, R.ApplyAll;
    mux.ended := true;
  }

  /**
     Closing: the tables go to the media file, after the media data if they have
     outgrown the reserved area. The journal is not written any more. If the
     configuration of a track with samples cannot be written, closing reports success
     (`Unwritten`) or fails, and there is no movie box.
  */
  method Close(mux: Mux, fixed: M.Fixed) returns (r: SyncResult, ghost moov: B.Box, tiled: bool)
    requires mux.Valid() && WithinLimits(mux)
    modifies mux`ended, mux`tracks, mux`maxReached, mux.file
    modifies mux.tracks`id, mux.tracks`times, mux.tracks`duration, mux.tracks`durationMoov, mux.tracks`timed
    ensures mux.Valid() && SameByHandle(mux) && mux.ended && (r.Written? || r.Unwritten? || r.Failed?)
    ensures mux.Base() + 16 <= |old(mux.file.content)|
    ensures r.Written? ==>
              && RefreshedFrom(mux, old(mux.tracks), old(Mux.States(mux.byHandle)))
              && Finished(mux, fixed, old(mux.file.content)[mux.Base() + 16..], moov, tiled)
    ensures r.Unwritten? ==> NoMovieBox(mux)
    ensures old(mux.file.grants) == [] ==>
              && RefreshedFrom(mux, old(mux.tracks), old(Mux.States(mux.byHandle)))
              && AsIntended(mux, fixed, |old(mux.file.content)|, true, r, moov, tiled)
  {
    hide Mux.Valid, WithinLimits, Sortable, ValidUpTo, RefreshedFrom, Finished, AsIntended, AllDescribed, RefsResolve, KeptOutside;
    End(mux);
    StillWithinLimits(mux);
    ValidAtPosition(mux);
    r, moov, tiled := SyncInternal(mux, fixed, true, mux.file.pos);
    ValidAtPosition(mux);
  }

  // ---------- runs ----------

  /** No table has more than `n` entries. */
  ghost predicate Small(mux: Mux, n: nat)
    reads mux`byHandle, mux.byHandle
  {
    |mux.byHandle| <= n && forall h :: 0 <= h < |mux.byHandle| ==> |mux.byHandle[h].samples| <= n && |mux.byHandle[h].syncs| <= n
  }

  /** Where a run is: the recording is sound, and the log has what was kept. */
  ghost predicate Running(mux: Mux, n: nat, k: Kept)
    reads mux, mux.byHandle, mux.file, mux.journal
  {
    mux.Valid() && mux.AllLive() && Small(mux, n) && (mux.journal != null && mux.intact ==> LogIs(mux.log, k))
  }

  // ---------- what never exceeds the limits of the reader ----------

  /** What is modest and not too long is within the limits of the reader. */
  lemma ModestLoggable(mux: Mux, n: nat, s: Snapshot)
    requires mux.Valid() && mux.AllLive() && Small(mux, n) && n <= J.MAX_ITEM_NUMBER && ModestContent(ContentOf(mux))
    requires s == Snap(mux).(got := s.got) && (s.got.Some? ==> s.got == mux.cover) && !R.AnyUndescribed(s.states)
    ensures Loggable(s)
  {
    hide Mux.Valid, R.Loggable, Track.State, Track.Valid, R.AllShort, SmallConfig, R.InRange;
    EveryTrackValid(mux);
    forall h | 0 <= h < |s.states| ensures R.InRange(s.states[h]) && R.Loggable(s.states[h]) {
      assert !R.Undescribed(s.states[h]);
      ModestTrack(mux.byHandle[h]);
    }
    ShortTail(mux.metas, mux.metaWritten);
  }

  lemma EveryTrackValid(mux: Mux)
    requires mux.Valid()
    ensures forall h :: 0 <= h < |mux.byHandle| ==> mux.byHandle[h].Valid()
  {
    hide Mux.MetasOk, Mux.DataSafe, Mux.JournalOk, Mux.LogOk, Track.Valid;
  }

  lemma ShortTail(ms: seq<K.Meta>, written: nat)
    requires R.AllShort(ms)
    ensures R.LoggableMetas(ms, written)
  {
    var k := R.FirstUnwritten(written, |ms|);
    assert forall i :: 0 <= i < |ms[k..]| ==> ms[k..][i] == ms[k + i];
  }

  lemma ModestTrack(t: Track)
    requires t.Valid() && t.live && |t.samples| <= J.MAX_ITEM_NUMBER && |t.syncs| <= J.MAX_ITEM_NUMBER
    requires R.AllShort(t.metas) && SmallConfig(t.config) && !R.Undescribed(t.State())
    ensures R.InRange(t.State()) && R.Loggable(t.State())
  {
    hide R.GoodMetas, R.GoodInfo, Entries, SyncsWithin, OwnChunks, R.LoggableMetas, R.AllShort;
    ShortTail(t.metas, t.metaWritten);
    EntriesShort(DtsOf(t.samples)[..t.timed]);
    if !t.infoWritten { ModestConfig(t.info.kind, t.config); }
  }

  lemma ModestConfig(kind: J.TrackType, c: J.Config)
    requires ConfigSuits(kind, c) && SmallConfig(c) && !(kind.Video? && c.NoConfig?)
    ensures R.GoodConfig(kind, R.ClipConfig(kind, c))
  {
  }

  // ---------- steps ----------

  /** What was recorded stays: tables and bytes only grow. */
  twostate predicate OnlyGrows(mux: Mux)
    reads mux`byHandle, mux.byHandle
  {
    && old(mux.byHandle) <= mux.byHandle
    && forall h :: 0 <= h < |old(mux.byHandle)| ==>
         && old(mux.byHandle[h].samples) <= mux.byHandle[h].samples && old(mux.byHandle[h].payloads) <= mux.byHandle[h].payloads
         && old(mux.byHandle[h].syncs) <= mux.byHandle[h].syncs
  }

  lemma TracksListed(mux: Mux)
    requires mux.Valid()
    ensures forall i :: 0 <= i < |mux.tracks| ==> mux.tracks[i] in mux.byHandle
  {
    hide Mux.MetasOk, Mux.DataSafe, Mux.JournalOk, Mux.LogOk, Track.Valid;
    mux.SameTracks();
  }

  /** Without new tracks or samples, the tables have no more entries than before. */
  twostate lemma StillRunning(mux: Mux, new n: nat, new k: Kept)
    requires old(mux.AllLive()) && old(Small(mux, n)) && SameByHandle(mux) && mux.Valid()
    requires mux.journal != null && mux.intact ==> LogIs(mux.log, k)
    ensures Running(mux, n, k)
  {
    hide Mux.Valid, LogIs;
  }

  /** Only track `k` changed. */
  twostate lemma OneTrackChanged(mux: Mux, new k: nat)
    requires mux.byHandle == old(mux.byHandle) && mux.metas == old(mux.metas) && mux.cover == old(mux.cover) && k < |mux.byHandle|
    requires forall h :: 0 <= h < |mux.byHandle| && h != k ==> unchanged(mux.byHandle[h])
    ensures ContentOf(mux) == With(old(ContentOf(mux)), k + 1, ContentOfTrack(mux.byHandle[k]))
  {
    forall h | 0 <= h < |mux.byHandle| && h != k ensures ContentOfTrack(mux.byHandle[h]) == old(ContentOfTrack(mux.byHandle[h])) {
      assert unchanged(mux.byHandle[h]);
    }
  }

  /** No track changed. */
  twostate lemma NoTrackChanged(mux: Mux)
    requires mux.byHandle == old(mux.byHandle)
    requires forall h :: 0 <= h < |mux.byHandle| ==> ContentOfTrack(mux.byHandle[h]) == old(ContentOfTrack(mux.byHandle[h]))
    ensures TracksOf(mux.byHandle) == old(TracksOf(mux.byHandle))
  {
    hide ContentOfTrack;
  }

  method DoReference(mux: Mux, op: Op, ghost reply: Reply)
    requires mux.Valid() && Sane(op) && op.AddReference?
    modifies mux.byHandle`refs, mux.byHandle`infoWritten
    ensures mux.Valid() && ContentOf(mux) == After(old(ContentOf(mux)), op, reply)
  {
    hide Mux.Valid, TracksOf, With;
    var r := mux.AddReference(op.handle, op.ref);
    if r.Added? {
      ghost var k: nat := op.handle - 1;
      OneTrackChanged(mux, k);
    } else {
      NoTrackChanged(mux);
    }
  }

  method DoConfig(mux: Mux, op: Op, ghost reply: Reply)
    requires mux.Valid() && Sane(op) && op.SetConfig?
    modifies mux.byHandle`config
    ensures mux.Valid() && ContentOf(mux) == After(old(ContentOf(mux)), op, reply)
  {
    hide Mux.Valid, TracksOf, Accepts, AfterRefusal;
    var r := mux.SetConfig(op.handle, op.config);
    if 1 <= op.handle <= |mux.byHandle| {
      ghost var k: nat := op.handle - 1;
      OneTrackChanged(mux, k);
    } else {
      NoTrackChanged(mux);
    }
  }

  method DoTrackMeta(mux: Mux, op: Op, ghost reply: Reply)
    requires mux.Valid() && Sane(op) && op.AddTrackMeta?
    modifies mux.byHandle`metas, mux.byHandle`metaWritten
    ensures mux.Valid() && ContentOf(mux) == After(old(ContentOf(mux)), op, reply)
  {
    hide Mux.Valid, TracksOf, K.Add, K.IndexOf, K.ValidKey;
    var r := mux.AddTrackMetadata(op.handle, op.key, op.value);
    if r.Added? {
      ghost var k: nat := op.handle - 1;
      OneTrackChanged(mux, k);
    } else {
      NoTrackChanged(mux);
    }
  }

  /** The operations that only describe the recording. */
  method Describe(mux: Mux, op: Op, ghost reply: Reply)
    requires mux.Valid() && Sane(op) && !op.AddTrack? && !op.AddSample? && !op.SyncNow?
    modifies mux`metas, mux`stale, mux`cover, mux`coverWritten
    modifies mux.byHandle`refs, mux.byHandle`infoWritten, mux.byHandle`config, mux.byHandle`metas, mux.byHandle`metaWritten
    ensures mux.Valid() && ContentOf(mux) == After(old(ContentOf(mux)), op, reply)
  {
    hide Mux.Valid, TracksOf, K.Add, K.IndexOf, K.ValidKey, Sane;
    match op {
      case AddReference(_, _) => DoReference(mux, op, reply);
      case SetConfig(_, _) => DoConfig(mux, op, reply);
      case AddTrackMeta(_, _, _) => DoTrackMeta(mux, op, reply);
      case AddFileMeta(key, value) =>
        var r := mux.AddFileMetadata(key, value);
        NoTrackChanged(mux);
      case SetCover(kind, data) =>
        SaneCover(op);
        var r := mux.SetCover(kind, data);
        NoTrackChanged(mux);
    }
  }

  method StepDescribe(mux: Mux, op: Op, ghost n: nat, ghost k: Kept, ghost reply: Reply)
    requires Running(mux, n, k) && Sane(op) && !op.AddTrack? && !op.AddSample? && !op.SyncNow?
    modifies mux`metas, mux`stale, mux`cover, mux`coverWritten
    modifies mux.byHandle`refs, mux.byHandle`infoWritten, mux.byHandle`config, mux.byHandle`metas, mux.byHandle`metaWritten
    ensures Running(mux, n, k) && ContentOf(mux) == After(old(ContentOf(mux)), op, reply)
  {
    hide Mux.Valid, LogIs, TracksOf, After, Sane;
    Describe(mux, op, reply);
    StillRunning(mux, n, k);
  }

  lemma SaneCover(op: Op)
    requires Sane(op) && op.SetCover?
    ensures |op.data| < TWO64
  {
  }

  /** A track more, or none. */
  method StepTrack(mux: Mux, op: Op, ghost n: nat, ghost k: Kept, ghost reply: Reply)
    requires Running(mux, n, k) && n < B.MAX_ENTRY_COUNT && Sane(op) && op.AddTrack?
    modifies mux`tracks, mux`byHandle
    ensures Running(mux, n + 1, k) && old(mux.byHandle) <= mux.byHandle && ContentOf(mux) == After(old(ContentOf(mux)), op, reply)
    ensures forall h :: |old(mux.byHandle)| <= h < |mux.byHandle| ==> fresh(mux.byHandle[h])
  {
    hide Mux.Valid, LogIs, TracksOf;
    var r := mux.AddTrack(op.typeCode, op.name, op.flags, op.timescale, op.created, op.modified);
    NoSyncsWithoutSamples(mux);
    if r.Some? { NewTrackIs(mux, mux.byHandle[|mux.byHandle| - 1], op); } else { NoTrackChanged(mux); }
  }

  twostate lemma NewTrackIs(mux: Mux, new t: Track, new op: Op)
    requires mux.byHandle == old(mux.byHandle) + [t] && forall h :: 0 <= h < |old(mux.byHandle)| ==> unchanged(old(mux.byHandle)[h])
    requires Sane(op) && op.AddTrack? && J.TypeFromCode(op.typeCode).Some?
    requires t.info == J.TrackInfo(J.TypeFromCode(op.typeCode).value, op.name, op.flags, op.timescale, op.created + J.EPOCH_OFFSET, op.modified + J.EPOCH_OFFSET)
    requires t.State() == Mux.NewState(t.handle, t.info) && t.payloads == [] && t.lastDts == 0
    ensures TracksOf(mux.byHandle) == old(TracksOf(mux.byHandle)) + [NewTrack(J.TypeFromCode(op.typeCode).value, op)]
  {
    forall h | 0 <= h < |old(mux.byHandle)| ensures ContentOfTrack(mux.byHandle[h]) == old(ContentOfTrack(mux.byHandle[h])) {
      assert unchanged(old(mux.byHandle)[h]);
    }
  }

  /** There are no more sync entries than samples. */
  lemma {:induction false} SyncsShort(syncs: seq<u32>, count: nat)
    requires SyncsWithin(syncs, count)
    ensures |syncs| <= count
  {
    if syncs != [] {
      var init, x := syncs[..|syncs| - 1], syncs[|syncs| - 1];
      SyncsShort(init, x - 1);
    }
  }

  lemma NoSyncsWithoutSamples(mux: Mux)
    requires mux.Valid() && mux.AllLive()
    ensures forall h :: 0 <= h < |mux.byHandle| && mux.byHandle[h].samples == [] ==> mux.byHandle[h].syncs == []
  {
    hide Mux.MetasOk, Mux.DataSafe, Mux.JournalOk, Mux.LogOk, R.GoodMetas, R.GoodInfo, R.InRange, R.ClipInfo;
    forall h | 0 <= h < |mux.byHandle| && mux.byHandle[h].samples == [] ensures mux.byHandle[h].syncs == [] {
      var t := mux.byHandle[h];
      assert t.Valid() && t.live;
      SyncsShort(t.syncs, |t.samples|);
    }
  }

  /** A sample more, or none; it is refused only if it is not acceptable, or the file does not take all of it. */
  method StepSample(mux: Mux, op: Op, ghost n: nat, ghost k: Kept) returns (ghost reply: Reply)
    requires Running(mux, n, k) && n < B.MAX_ENTRY_COUNT && Sane(op) && op.AddSample?
    modifies mux.byHandle, mux.file
    ensures Running(mux, n + 1, k) && ContentOf(mux) == After(old(ContentOf(mux)), op, reply)
    ensures Answered(old(ContentOf(mux)), op, reply, old(mux.file.pos), old(mux.file.grants) == [])
    ensures old(mux.file.grants) == [] ==> mux.file.grants == []
  {
    hide Mux.Valid, LogIs, Mux.Recorded, Flatten, After, TracksOf, Longer, With;
    SmallRoom(mux, n);
    ghost var c := ContentOf(mux);
    var r := mux.AddSample(op.handle, op.buffers, op.dts, op.sync);
    reply := Reply(r.Added?, old(mux.file.pos));
    if r.Added? {
      ghost var at: nat := op.handle - 1;
      OneMore(mux, n, at, old(mux.file.pos), Flatten(op.buffers), op.dts, op.sync);
      OneMoreContent(mux, at, old(mux.file.pos), Flatten(op.buffers), op.dts, op.sync);
    } else {
      NoTrackChanged(mux);
    }
    AfterSample(c, op, reply);
  }

  lemma SmallRoom(mux: Mux, n: nat)
    requires Small(mux, n) && n < B.MAX_ENTRY_COUNT
    ensures forall h :: 0 <= h < |mux.byHandle| ==> |mux.byHandle[h].samples| < TWO32 - 1
  {
  }

  /** What can be said of the answer to a sample: it was put at the position there was, and on a device that takes every byte it is refused only if it is not acceptable or too much for a file. */
  ghost predicate Answered(c: Content, op: Op, reply: Reply, pos: nat, perfect: bool)
  {
    op.AddSample? ==>
      && reply.at == pos && (reply.taken ==> Acceptable(c, op))
      && (perfect && Acceptable(c, op) && !reply.taken ==> pos + |Flatten(op.buffers)| > FILE_MAX)
  }

  twostate lemma OneMoreContent(mux: Mux, new k: nat, new offset: u64, new data: seq<byte>, new dts: int, new sync: bool)
    requires k < |mux.byHandle| && mux.Recorded(k, offset, data, dts, sync) && unchanged(mux`metas) && unchanged(mux`cover)
    ensures ContentOf(mux) == With(old(ContentOf(mux)), k + 1, Longer(old(ContentOf(mux)).tracks[k], data, offset, dts, sync))
  {
    hide TracksOf;
    var was := old(ContentOfTrack(mux.byHandle[k]));
    assert ContentOfTrack(mux.byHandle[k]) == Longer(was, data, offset, dts, sync);
    OneTrackChanged(mux, k);
  }

  twostate lemma OneMore(mux: Mux, new n: nat, new k: nat, new offset: u64, new data: seq<byte>, new dts: int, new sync: bool)
    requires k < |mux.byHandle| && mux.Recorded(k, offset, data, dts, sync) && old(mux.AllLive()) && old(Small(mux, n))
    ensures mux.AllLive() && Small(mux, n + 1)
  {
    hide Track.State;
    OneMoreTables(mux.byHandle[k], offset, data, dts, sync);
    forall h | 0 <= h < |mux.byHandle| ensures mux.byHandle[h].live {
      if h != k { assert old(mux.byHandle[h].live); }
    }
    forall h | 0 <= h < |mux.byHandle|
      ensures |mux.byHandle[h].samples| <= n + 1 && |mux.byHandle[h].syncs| <= n + 1
    {
      if h != k {
        assert old(|mux.byHandle[h].samples|) <= n;
      }
    }
  }

  twostate lemma OneMoreTables(t: Track, new offset: u64, new data: seq<byte>, new dts: int, new sync: bool)
    requires var s := old(t.State());
             t.State() == s.(samples := s.samples + [J.Sample(|data| % TWO32, offset, dts % TWO64)], chunks := s.chunks + [offset],
                             syncs := s.syncs + (if sync && t.info.kind.Video? then [(|s.samples| + 1) % TWO32] else []))
    ensures old(t.samples) <= t.samples && |t.samples| == |old(t.samples)| + 1
    ensures old(t.syncs) <= t.syncs && |t.syncs| <= |old(t.syncs)| + 1
  {
  }

  /** A sync; what is kept moves on when the journal was committed. */
  method StepSync(mux: Mux, op: Op, ghost n: nat, ghost k: Kept) returns (over: bool, ghost note: Note)
    requires Running(mux, n, k) && n <= B.MAX_ENTRY_COUNT && Sane(op) && op.SyncNow? && !mux.ended
    modifies mux, mux.byHandle, mux.file, mux.journal
    ensures Running(mux, n, if note.journalled then KeptAfter(k, note.snap) else k)
    ensures mux.byHandle == old(mux.byHandle) && ContentOf(mux) == old(ContentOf(mux)) && over == mux.ended
    ensures note.snap == old(Snap(mux)).(got := note.snap.got)
    ensures mux.intact <==> old(mux.intact) && (note.journalled ==> Loggable(note.snap))
    ensures mux.synced <==> old(mux.synced) || note.journalled
    ensures !note.journalled && mux.journal != null ==> over && mux.JournalKept()
    ensures over ==> Excused(op.lands, note, mux.journal)
    ensures old(ModestContent(ContentOf(mux))) && n <= J.MAX_ITEM_NUMBER ==> mux.intact == old(mux.intact)
    ensures old(mux.file.grants) == [] ==> mux.file.grants == []
  {
    hide Mux.Valid, LogIs, Mux.States, Loggable, KeptAfter, R.AnyUndescribed, TracksOf, ModestContent;
    TracksListed(mux);
    SmallWithin(mux, n);
    if ModestContent(ContentOf(mux)) && n <= J.MAX_ITEM_NUMBER { AllLoggable(mux, n); }
    var ok;
    ok, over, note := Sync(mux, op.writeTables, op.lands, op.fixed, k);
    StillRunning(mux, n, if note.journalled then KeptAfter(k, note.snap) else k);
  }

  /** The same for any cover that may be written. */
  lemma AllLoggable(mux: Mux, n: nat)
    requires mux.Valid() && mux.AllLive() && Small(mux, n) && n <= J.MAX_ITEM_NUMBER && ModestContent(ContentOf(mux))
    ensures forall got: Option<(u32, seq<byte>)> :: (got.Some? ==> got == mux.cover) && !R.AnyUndescribed(Snap(mux).states) ==> Loggable(Snap(mux).(got := got))
  {
    hide Mux.Valid, Loggable, ModestContent, R.AnyUndescribed, Mux.States;
    forall got: Option<(u32, seq<byte>)> | (got.Some? ==> got == mux.cover) && !R.AnyUndescribed(Snap(mux).states)
      ensures Loggable(Snap(mux).(got := got))
    {
      ModestLoggable(mux, n, Snap(mux).(got := got));
    }
  }

  lemma SmallWithin(mux: Mux, n: nat)
    requires Small(mux, n) && n <= B.MAX_ENTRY_COUNT
    ensures WithinLimits(mux)
  {
  }

  twostate lemma ContentOnlyGrows(mux: Mux)
    requires old(mux.byHandle) <= mux.byHandle && Grows(old(ContentOf(mux)), ContentOf(mux))
    ensures OnlyGrows(mux)
  {
    forall h | 0 <= h < |old(mux.byHandle)|
      ensures old(mux.byHandle[h].samples) <= mux.byHandle[h].samples && old(mux.byHandle[h].payloads) <= mux.byHandle[h].payloads
      ensures old(mux.byHandle[h].syncs) <= mux.byHandle[h].syncs
    {
      assert TrackGrows(old(ContentOf(mux)).tracks[h], ContentOf(mux).tracks[h]);
    }
  }

  /**
     One operation, whatever its outcome: the recording then contains what the operation
     means. `note` says whether it completed a sync of the journal, and what that sync
     found; the journal stays replayable exactly when this was within the limits of its
     reader, as it is when everything is modest.
  */
  method Step(mux: Mux, op: Op, ghost n: nat, ghost k: Kept) returns (over: bool, ghost note: Note, ghost reply: Reply)
    requires Running(mux, n, k) && n + Weight(op) <= B.MAX_ENTRY_COUNT && Sane(op) && !mux.ended
    modifies mux, mux.byHandle, mux.file, mux.journal
    ensures Running(mux, n + Weight(op), if note.journalled then KeptAfter(k, note.snap) else k) && OnlyGrows(mux) && over == mux.ended
    ensures mux.intact <==> old(mux.intact) && (note.journalled ==> Loggable(note.snap))
    ensures mux.synced <==> old(mux.synced) || note.journalled
    ensures note.journalled ==> op.SyncNow?
    ensures op.SyncNow? && !note.journalled && mux.journal != null ==> over && mux.JournalKept()
    ensures over ==> op.SyncNow? && Excused(op.lands, note, mux.journal)
    ensures old(mux.byHandle) <= mux.byHandle && forall h :: |old(mux.byHandle)| <= h < |mux.byHandle| ==> fresh(mux.byHandle[h])
    ensures old(mux.file.grants) == [] ==> mux.file.grants == []
    ensures op.AddSample? ==> reply.at == old(mux.file.pos)
    ensures note.snap == old(Snap(mux)).(got := note.snap.got) && Shows(note.snap, old(ContentOf(mux)))
    ensures old(ModestContent(ContentOf(mux))) && n <= J.MAX_ITEM_NUMBER ==> mux.intact == old(mux.intact)
    ensures Answered(old(ContentOf(mux)), op, reply, reply.at, old(mux.file.grants) == [])
    ensures ContentOf(mux) == After(old(ContentOf(mux)), op, reply)
  {
    hide Mux.Valid, LogIs, Mux.States, Running, Small, Loggable, KeptAfter, ModestContent, TracksOf, OnlyGrows, Grows, Acceptable, Shows;
    over, note, reply := false, Note(false, Snap(mux)), Reply(false, 0);
    if op.AddTrack? {
      StepTrack(mux, op, n, k, reply);
    } else if op.AddSample? {
      reply := StepSample(mux, op, n, k);
    } else if op.SyncNow? {
      over, note := StepSync(mux, op, n, k);
    } else {
      StepDescribe(mux, op, n, k, reply);
    }
    SnapStays(mux, note.snap);
    StepGrows(mux, op, reply);
  }

  twostate lemma StepGrows(mux: Mux, new op: Op, new reply: Reply)
    requires Sane(op) && old(mux.byHandle) <= mux.byHandle && ContentOf(mux) == After(old(ContentOf(mux)), op, reply)
    ensures OnlyGrows(mux)
  {
    hide After, TracksOf, Grows, OnlyGrows, Sane;
    AfterGrows(old(ContentOf(mux)), op, reply);
    ContentOnlyGrows(mux);
  }

  /** A recording just opened. */
  ghost predicate Started(mux: Mux)
    reads mux, mux.byHandle, mux.file, mux.journal
  {
    Running(mux, 0, NOTHING_KEPT) && mux.byHandle == [] && !mux.ended && mux.intact && !mux.synced && mux.metas == [] && mux.cover.None?
  }

  /** What the journal holds after these syncs. */
  function LastKept(notes: seq<Note>): Kept
  {
    if notes == [] then NOTHING_KEPT
    else
      var k := |notes| - 1;
      if notes[k].journalled then KeptAfter(LastKept(notes[..k]), notes[k].snap) else LastKept(notes[..k])
  }

  lemma LastKeptNext(notes: seq<Note>, note: Note)
    ensures LastKept([]) == NOTHING_KEPT
    ensures LastKept(notes + [note]) == if note.journalled then KeptAfter(LastKept(notes), note.snap) else LastKept(notes)
  {
    assert (notes + [note])[..|notes|] == notes;
  }

  /** Every completed sync was within the limits of the reader. */
  predicate AllWithin(notes: seq<Note>)
  {
    forall i :: 0 <= i < |notes| && notes[i].journalled ==> Loggable(notes[i].snap)
  }

  /** Some sync was completed. */
  predicate SomeJournalled(notes: seq<Note>)
  {
    exists i :: 0 <= i < |notes| && notes[i].journalled
  }

  /** Only syncs are completed syncs; one that is not, although there is a journal, is the last operation. */
  predicate NotesOf(notes: seq<Note>, ops: seq<Op>, journal: bool)
  {
    && |notes| <= |ops|
    && (forall i :: 0 <= i < |notes| ==> notes[i].journalled ==> ops[i].SyncNow?)
    && (journal ==> forall i :: 0 <= i < |notes| - 1 ==> (notes[i].journalled <==> ops[i].SyncNow?))
  }

  /** The last of them was completed, or is not a sync, or there is no journal. */
  predicate LastDone(notes: seq<Note>, ops: seq<Op>, journal: bool)
    requires |notes| <= |ops|
  {
    var i := |notes| - 1;
    notes == [] || !journal || (notes[i].journalled <==> ops[i].SyncNow?)
  }

  lemma NotesNext(notes: seq<Note>, ops: seq<Op>, journal: bool, note: Note)
    requires NotesOf(notes, ops, journal) && |notes| < |ops| && LastDone(notes, ops, journal) && (note.journalled ==> ops[|notes|].SyncNow?)
    ensures NotesOf(notes + [note], ops, journal)
    ensures AllWithin(notes + [note]) <==> AllWithin(notes) && (note.journalled ==> Loggable(note.snap))
    ensures SomeJournalled(notes + [note]) <==> SomeJournalled(notes) || note.journalled
  {
    hide Loggable;
    var all := notes + [note];
    assert all[|notes|] == note;
    if AllWithin(all) {
      forall i | 0 <= i < |notes| && notes[i].journalled ensures Loggable(notes[i].snap) { assert all[i] == notes[i]; }
    }
    if SomeJournalled(notes) {
      var i :| 0 <= i < |notes| && notes[i].journalled;
      assert all[i].journalled;
    }
  }

  /** What a sync found is what the recording then contained. */
  ghost predicate Shows(s: Snapshot, c: Content)
  {
    && |s.states| == |c.tracks| && s.metas == c.metas
    && forall h :: 0 <= h < |c.tracks| ==>
         && s.states[h].info == c.tracks[h].info && s.states[h].refs == c.tracks[h].refs && s.states[h].config == c.tracks[h].config
         && s.states[h].metas == c.tracks[h].metas && s.states[h].samples == c.tracks[h].samples && s.states[h].syncs == c.tracks[h].syncs
  }

  twostate lemma SnapStays(mux: Mux, new s: Snapshot)
    requires s == old(Snap(mux)).(got := s.got)
    ensures Shows(s, old(ContentOf(mux)))
  {
  }

  /** The answers are those of a device that takes every byte, if it is one; what each sync found is what there was. */
  ghost predicate Followed(ops: seq<Op>, notes: seq<Note>, replies: seq<Reply>, perfect: bool)
    requires |notes| == |replies| == |ops| && forall i :: 0 <= i < |ops| ==> Sane(ops[i])
  {
    forall i :: 0 <= i < |ops| ==>
      && Shows(notes[i].snap, Final(ops[..i], replies[..i]))
      && Answered(Final(ops[..i], replies[..i]), ops[i], replies[i], replies[i].at, perfect)
  }

  lemma FollowedNext(ops: seq<Op>, notes: seq<Note>, replies: seq<Reply>, perfect: bool, k: nat, note: Note, reply: Reply)
    requires |notes| == |replies| == k < |ops| && forall i :: 0 <= i < |ops| ==> Sane(ops[i])
    requires Followed(ops[..k], notes, replies, perfect)
    requires Shows(note.snap, Final(ops[..k], replies)) && Answered(Final(ops[..k], replies), ops[k], reply, reply.at, perfect)
    ensures Followed(ops[..k + 1], notes + [note], replies + [reply], perfect)
  {
    hide Shows, Answered, Final, Sane;
    var ns, rs := notes + [note], replies + [reply];
    assert ops[..k + 1][..k] == ops[..k] && rs[..k] == replies;
    forall i | 0 <= i < k + 1
      ensures Shows(ns[i].snap, Final(ops[..k + 1][..i], rs[..i]))
      ensures Answered(Final(ops[..k + 1][..i], rs[..i]), ops[..k + 1][i], rs[i], rs[i].at, perfect)
    {
      if i < k { assert ops[..k + 1][..i] == ops[..k][..i] && rs[..i] == replies[..i]; }
    }
  }

  /** One more operation, with its answer; `soon` is what the device is known to be then. */
  lemma Continued(ops: seq<Op>, notes: seq<Note>, replies: seq<Reply>, perfect: bool, soon: bool, k: nat, note: Note, reply: Reply)
    requires |notes| == |replies| == k < |ops| && forall i :: 0 <= i < |ops| ==> Sane(ops[i])
    requires Followed(ops[..k], notes, replies, perfect) && (perfect ==> soon)
    requires Shows(note.snap, Final(ops[..k], replies)) && Answered(Final(ops[..k], replies), ops[k], reply, reply.at, soon)
    ensures Followed(ops[..k + 1], notes + [note], replies + [reply], perfect)
    ensures Final(ops[..k + 1], replies + [reply]) == After(Final(ops[..k], replies), ops[k], reply)
    ensures LastKept(notes + [note]) == if note.journalled then KeptAfter(LastKept(notes), note.snap) else LastKept(notes)
  {
    hide Shows, Final, Sane, Followed, LastKept, KeptAfter, After, Acceptable, Flatten;
    FollowedNext(ops, notes, replies, perfect, k, note, reply);
    FinalNext(ops, replies, k, reply);
    LastKeptNext(notes, note);
  }

  predicate AllModest(ops: seq<Op>)
  {
    forall i :: 0 <= i < |ops| ==> Modest(ops[i])
  }

  /**
     A run: any operations in any order, with any failure of the devices. It stops at
     the first sync whose journal could not be written whole. The recording then contains
     what the operations mean. The journal is replayable exactly when every completed sync
     was within the limits of its reader: if keys, configurations and covers are, and no
     more than a million tracks and samples are added, that is always the case.
  */
  method Run(mux: Mux, ops: seq<Op>) returns (done: nat, ghost notes: seq<Note>, ghost replies: seq<Reply>)
    requires Started(mux) && Count(ops) <= B.MAX_ENTRY_COUNT && forall i :: 0 <= i < |ops| ==> Sane(ops[i])
    modifies mux, mux.file, mux.journal
    ensures done <= |ops| && (done == |ops| || mux.ended) && |notes| == |replies| == done
    ensures Running(mux, Count(ops[..done]), LastKept(notes))
    ensures ContentOf(mux) == Final(ops[..done], replies) && Followed(ops[..done], notes, replies, old(mux.file.grants) == [])
    ensures forall h :: 0 <= h < |mux.byHandle| ==> fresh(mux.byHandle[h])
    ensures NotesOf(notes, ops, mux.journal != null)
    ensures mux.ended ==> done > 0 && ops[done - 1].SyncNow? && Excused(ops[done - 1].lands, notes[done - 1], mux.journal)
    ensures mux.intact <==> AllWithin(notes)
    ensures mux.synced <==> SomeJournalled(notes)
    ensures AllModest(ops) && Count(ops) <= J.MAX_ITEM_NUMBER ==> mux.intact
    ensures old(mux.file.grants) == [] ==> mux.file.grants == []
  {
    hide Running, Sane, Mux.States, LastKept, Mux.JournalKept, Loggable, KeptAfter, ModestContent, Modest, Count;
    hide TracksOf, Final, After, Shows, Answered, Followed, OnlyGrows, NotesOf, AllWithin, SomeJournalled, Excused;
    done, notes, replies := 0, [], [];
    LastKeptNext([], Note(false, NOTHING));
    NothingYet(mux, ops, mux.file.grants == []);
    var over := false;
    while done < |ops| && !over
      invariant done <= |ops| && |notes| == |replies| == done && over == mux.ended
      invariant Running(mux, Count(ops[..done]), LastKept(notes))
      invariant ContentOf(mux) == Final(ops[..done], replies) && Followed(ops[..done], notes, replies, old(mux.file.grants) == [])
      invariant forall h :: 0 <= h < |mux.byHandle| ==> fresh(mux.byHandle[h])
      invariant over ==> done > 0 && ops[done - 1].SyncNow? && Excused(ops[done - 1].lands, notes[done - 1], mux.journal)
      invariant NotesOf(notes, ops, mux.journal != null) && (!over ==> LastDone(notes, ops, mux.journal != null))
      invariant mux.intact <==> AllWithin(notes)
      invariant mux.synced <==> SomeJournalled(notes)
      invariant AllModest(ops) ==> ModestContent(ContentOf(mux))
      invariant AllModest(ops) && Count(ops) <= J.MAX_ITEM_NUMBER ==> mux.intact
      invariant old(mux.file.grants) == [] ==> mux.file.grants == []
    {
      CountNext(ops, done);
      CountMonotone(ops, done);
      CountMonotone(ops, done + 1);
      ghost var note, reply, c, perfect := Note(false, NOTHING), Reply(false, 0), ContentOf(mux), mux.file.grants == [];
      over, note, reply := Step(mux, ops[done], Count(ops[..done]), LastKept(notes));
      Continued(ops, notes, replies, old(mux.file.grants) == [], perfect, done, note, reply);
      NotesNext(notes, ops, mux.journal != null, note);
      if AllModest(ops) { AfterModest(c, ops[done], reply); }
      notes, replies, done := notes + [note], replies + [reply], done + 1;
    }
  }

  lemma NothingYet(mux: Mux, ops: seq<Op>, perfect: bool)
    requires Started(mux)
    ensures Count(ops[..0]) == 0 && ModestContent(ContentOf(mux)) && AllWithin([]) && !mux.synced
    ensures ContentOf(mux) == Final(ops[..0], []) && Followed(ops[..0], [], [], perfect)
    ensures NotesOf([], ops, mux.journal != null) && !SomeJournalled([])
  {
    hide Running;
  }

  lemma JustOpened(m: Mux)
    requires m.Valid() && m.byHandle == [] && m.log == R.EMPTY_LOG && !m.ended && m.intact && !m.synced && m.metas == [] && m.cover.None?
    ensures Started(m)
  {
    hide Mux.Valid;
  }

  /** A recording from its start. */
  method Record(timescale: u32, megabytes: u32, path: seq<byte>, file: DataFile, journal: TablesFile?, ops: seq<Op>)
    returns (m: Option<Mux>, done: nat, ghost notes: seq<Note>, ghost replies: seq<Reply>)
    requires megabytes < 4096 && file.Valid() && file.pos == 0
    requires journal != null ==> journal.Valid() && journal.pos == 0 && journal.safe == []
    requires Count(ops) <= B.MAX_ENTRY_COUNT && forall i :: 0 <= i < |ops| ==> Sane(ops[i])
    modifies file, journal
    ensures m.Some? ==> m.value.file == file && m.value.journal == journal && m.value.megabytes == megabytes && m.value.path == path
    ensures m.Some? ==> fresh(m.value) && m.value.timescale == timescale && forall h :: 0 <= h < |m.value.byHandle| ==> fresh(m.value.byHandle[h])
    ensures m.Some? ==> 0 < |path| < PATH_MAX && 0 < megabytes && done <= |ops| && (done == |ops| || m.value.ended)
    ensures m.Some? ==> |notes| == |replies| == done && Running(m.value, Count(ops[..done]), LastKept(notes)) && NotesOf(notes, ops, journal != null)
    ensures m.Some? ==> ContentOf(m.value) == Final(ops[..done], replies) && Followed(ops[..done], notes, replies, old(file.grants) == [])
    ensures m.Some? && m.value.ended ==> done > 0 && ops[done - 1].SyncNow? && Excused(ops[done - 1].lands, notes[done - 1], journal)
    ensures m.Some? ==> (m.value.intact <==> AllWithin(notes))
    ensures m.Some? ==> (m.value.synced <==> SomeJournalled(notes))
    ensures m.Some? && AllModest(ops) && Count(ops) <= J.MAX_ITEM_NUMBER ==> m.value.intact
    ensures m.Some? && old(file.grants) == [] ==> file.grants == []
    ensures old(file.grants) == [] && (journal == null || old(journal.room) >= 32 + |path|) && 0 < |path| < PATH_MAX && 0 < megabytes ==> m.Some?
  {
    hide Mux.Valid, Running, Sane, KeptOutside, LastKept, NotesOf, AllWithin, AllModest, Count, Final, TracksOf, Shows, Answered, Followed, SomeJournalled;
    done, notes, replies := 0, [], [];
    m := Open(timescale, megabytes, path, file, journal);
    if m.Some? {
      JustOpened(m.value);
      ghost var perfect := file.grants == [];
      done, notes, replies := Run(m.value, ops);
      LessFollowed(ops[..done], notes, replies, perfect, old(file.grants) == []);
    }
  }

  lemma LessFollowed(ops: seq<Op>, notes: seq<Note>, replies: seq<Reply>, perfect: bool, perfect': bool)
    requires |notes| == |replies| == |ops| && forall i :: 0 <= i < |ops| ==> Sane(ops[i])
    requires Followed(ops, notes, replies, perfect) && (perfect' ==> perfect)
    ensures Followed(ops, notes, replies, perfect')
  {
    hide Final, Shows, Sane, Acceptable, Flatten;
  }
}
