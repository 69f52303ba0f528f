/**
 What a crash leaves of a recording, and what recovery makes of it: by track, the
 longest part of what the last completed sync saw that is still in the media file.
 */
module CrashSafety {
  import opened Bytes
  import opened Wrappers
  import opened JournalFormat
  import opened JournalReplay
  import opened JournalReader
  import opened JournalFile
  import opened MuxTrack
  import opened MuxFile
  import opened DataSafety
  import opened Mux
  import opened MuxSync
  import opened ConfigBytes
  import opened Recording
  import opened Recovery
  import B = BoxTree
  import M = Movie

  ghost function Payloads(ts: seq<Track>): (p: seq<seq<seq<byte>>>)
    ensures |p| == |ts| && forall h :: 0 <= h < |p| ==> p[h] == ts[h].payloads
    reads ts
  {
    seq(|ts|, h requires 0 <= h < |ts| reads ts => ts[h].payloads)
  }

  /** The bytes of the samples that the journal has, by handle. */
  function Logged(log: Log, p: seq<seq<seq<byte>>>): (r: seq<seq<seq<byte>>>)
    requires |log.tracks| <= |p|
    ensures |r| == |log.tracks|
    ensures forall h :: 0 <= h < |r| ==> r[h] == p[h][..Min(|log.tracks[h].samples|, |p[h]|)]
  {
    seq(|log.tracks|, h requires 0 <= h < |log.tracks| => p[h][..Min(|log.tracks[h].samples|, |p[h]|)])
  }

  lemma PrefixGrowing(a: seq<Sample>, b: seq<Sample>)
    requires a <= b && Growing(b)
    ensures Growing(a)
  {
    assert forall i :: 0 <= i < |a| ==> a[i] == b[i];
  }

  lemma PrefixesApart(a: seq<Sample>, a': seq<Sample>, b: seq<Sample>, b': seq<Sample>)
    requires a <= a' && b <= b' && Apart(a', b')
    ensures Apart(a, b)
  {
    assert forall i :: 0 <= i < |a| ==> a[i] == a'[i];
    assert forall i :: 0 <= i < |b| ==> b[i] == b'[i];
  }

  lemma PrefixSyncs(a: seq<u32>, b: seq<u32>, count: nat)
    requires a <= b && SyncsWithin(b, count)
    ensures SyncsWithin(a, U32_MAX) && |a| <= |b|
  {
    assert forall i :: 0 <= i < |a| ==> a[i] == b[i];
  }

  /** The bytes of a sample in the file are those in the part of it that is left. */
  lemma LeftInFile(content: seq<byte>, n: nat, x: Sample, p: seq<byte>, base: nat, high: nat)
    requires StoredAt(content, x, p, base + 16, high) && n <= |content|
    ensures SampleSalvageable(x, p, content[..n], base)
  {
    if x.offset + x.size <= n {
      assert content[..n][x.offset..x.offset + x.size] == content[x.offset..x.offset + x.size];
    }
  }

  lemma TrackLeft(t: Track, c: TrackLog, content: seq<byte>, n: nat, base: nat, high: nat)
    requires t.Valid() && t.live && Stored(content, t.samples, t.payloads, base + 16, high) && Growing(t.samples) && n <= |content|
    requires |t.samples| <= B.MAX_ENTRY_COUNT && |t.syncs| <= B.MAX_ENTRY_COUNT
    requires c.info == ClipInfo(t.info) && c.samples <= t.samples && c.chunks <= t.chunks && c.syncs <= t.syncs
    requires |c.chunks| == |c.samples| && c.chunkMap == ONE_PER_CHUNK
    ensures TrackSalvageable(c, t.payloads[..|c.samples|], content[..n], base)
  {
    hide GoodMetas, GoodInfo, InRange, StoredAt, SampleSalvageable, SyncsWithin, Growing;
    PrefixGrowing(c.samples, t.samples);
    PrefixSyncs(c.syncs, t.syncs, |t.samples|);
    forall i | 0 <= i < |c.samples| ensures SampleSalvageable(c.samples[i], t.payloads[..|c.samples|][i], content[..n], base) {
      assert c.samples[i] == t.samples[i] && t.payloads[..|c.samples|][i] == t.payloads[i];
      LeftInFile(content, n, t.samples[i], t.payloads[i], base, high);
    }
    forall i | 0 <= i < |c.samples| ensures c.chunks[i] == c.samples[i].offset {
      assert c.chunks[i] == t.chunks[i] && c.samples[i] == t.samples[i];
    }
  }

  /** Everything recovery relies on, for a media file cut anywhere. */
  lemma DataLeft(m: Mux, n: nat, high: nat)
    requires m.TracksOk() && m.DataSafe(high) && m.PrefixOk() && m.AllLive() && WithinLimits(m) && n <= |m.file.content|
    ensures Salvageable(m.log, Logged(m.log, Payloads(m.byHandle)), m.file.content[..n], m.Base())
  {
    hide Track.Valid, Stored, Growing, Apart, TrackSalvageable;
    var p := Logged(m.log, Payloads(m.byHandle));
    forall h | 0 <= h < |m.log.tracks| ensures TrackSalvageable(m.log.tracks[h], p[h], m.file.content[..n], m.Base()) {
      assert m.Begun(h);
      var t := m.byHandle[h];
      TrackCounts(t);
      assert Stored(m.file.content, t.samples, t.payloads, m.Base() + 16, high);
      TrackLeft(t, m.log.tracks[h], m.file.content, n, m.Base(), high);
    }
    forall g, h | 0 <= g < h < |m.log.tracks| ensures Apart(m.log.tracks[g].samples, m.log.tracks[h].samples) {
      assert m.Begun(g) && m.Begun(h);
      PrefixesApart(m.log.tracks[g].samples, m.byHandle[g].samples, m.log.tracks[h].samples, m.byHandle[h].samples);
    }
  }

  lemma TrackCounts(t: Track)
    requires t.Valid()
    ensures |t.payloads| == |t.samples|
  {
  }

  lemma JournalHolds(m: Mux, bytes: seq<byte>)
    requires m.JournalOk() && m.journal != null && m.intact && m.megabytes == DEFAULT_MEGABYTES
    requires 0 < |m.path| < PATH_MAX && m.path[0] != 0 && |m.log.tracks| < TWO32 - 1
    requires m.journal.safe <= bytes
    ensures JournalLeft(bytes, m.journal.safe, m.synced, m.path, m.committed, m.torn, m.log)
    ensures !m.synced ==> m.log == EMPTY_LOG
  {
    hide PHeader, PRecords, PartOfCover;
    Recording.NoRecords();
  }

  /**
     What recovery made of one track: `t` is the recovered track, `s` what the last
     completed sync saw, `config` the configuration that was journalled, and `p` the bytes
     of the samples.
  */
  ghost predicate RecoveredTrack(t: Track, s: TrackState, config: Config, p: seq<seq<byte>>, eof: nat)
    reads t
  {
    && |t.samples| == |t.chunks| == |t.payloads| <= |s.samples|
    && t.samples == s.samples[..|t.samples|] && t.payloads <= p
    && OwnChunks(t.samples, t.chunks)
    && (forall i :: 0 <= i < |s.samples| ==> (i < |t.samples| <==> s.samples[i].offset + s.samples[i].size <= eof))
    && InfoKept(t.info, s.info) && t.config == config && t.refs == RefsFrom(RefBytes(s.refs))
    && (s.samples != [] ==> t.syncs == s.syncs && MetasKept(t.metas, s.metas))
  }

  lemma TrackRecovered(t: Track, c: TrackLog, s: TrackState, config: Config, p: seq<seq<byte>>, all: seq<seq<byte>>, content: seq<byte>, base: nat, eof: nat)
    requires Salvaged(t, c, p, eof) && TrackSalvageable(c, p, content, base) && TrackLogIs(c, s, config)
    requires p <= all
    ensures RecoveredTrack(t, s, config, all, eof)
  {
    hide SampleSalvageable, KeptCount, RefBytes, RefsFrom, ClipInfo, ClipMetas, SyncsWithin, Growing, InfoKept, MetasKept;
    InfoSurvives(t.info, s.info);
    MetasSurvive(t.metas, s.metas);
    forall i | 0 <= i < |s.samples| ensures i < |t.samples| <==> s.samples[i].offset + s.samples[i].size <= eof {
      NothingLost(c.samples, c.chunks, eof, i);
    }
    assert forall i :: 0 <= i < |t.samples| ==> t.chunks[i] == c.chunks[i] && t.samples[i] == c.samples[i];
    assert t.payloads == p[..|t.payloads|] && p == all[..|p|];
  }

  /**
     All tracks that the last completed sync saw are there again, by handle, and the
     metadata of the file if none of it was overridden after it was journalled. The cover is
     that of the last completed sync that had one, if no part of one was committed instead.
  */
  ghost predicate RecoveredAll(r: Mux, k: Kept, p: seq<seq<seq<byte>>>, torn: seq<byte>, eof: nat)
    reads r`byHandle, r.byHandle, r`metas, r`cover
  {
    && |r.byHandle| == |k.last.states| == |k.configs| <= |p|
    && (forall h :: 0 <= h < |k.configs| ==> RecoveredTrack(r.byHandle[h], k.last.states[h], k.configs[h], p[h], eof))
    && (!k.last.stale ==> MetasKept(r.metas, k.last.metas)) && (torn == [] ==> r.cover == k.cover)
  }

  lemma AllRecovered(r: Mux, log: Log, k: Kept, p: seq<seq<seq<byte>>>, torn: seq<byte>, content: seq<byte>, base: nat, eof: nat)
    requires |log.tracks| <= |p| && RecoveredFrom(r, log, Logged(log, p), torn, eof) && Salvageable(log, Logged(log, p), content, base)
    requires LogIs(log, k)
    ensures RecoveredAll(r, k, p, torn, eof)
  {
    hide Salvaged, TrackSalvageable, TrackLogIs, RecoveredTrack, Apart, ClipMetas, MetasKept;
    MetasSurvive(r.metas, k.last.metas);
    forall h | 0 <= h < |k.configs| ensures RecoveredTrack(r.byHandle[h], k.last.states[h], k.configs[h], p[h], eof) {
      TrackRecovered(r.byHandle[h], log.tracks[h], k.last.states[h], k.configs[h], Logged(log, p)[h], p[h], content, base, eof);
    }
  }

  // ---------- what is still in the file ----------

  /** Sample `i` of track `h`, as the last completed sync saw it, is still in the file. */
  predicate StillThere(k: Kept, h: nat, i: nat, eof: nat)
  {
    h < |k.last.states| && i < |k.last.states[h].samples| && Ending(k, h, i) <= eof
  }

  function Ending(k: Kept, h: nat, i: nat): nat
    requires h < |k.last.states| && i < |k.last.states[h].samples|
  {
    k.last.states[h].samples[i].offset + k.last.states[h].samples[i].size
  }

  ghost predicate SomeStillThere(k: Kept, eof: nat)
  {
    exists h: nat, i: nat :: StillThere(k, h, i, eof)
  }

  /** `max` is where the furthest of them ends. */
  ghost predicate FurthestThere(k: Kept, eof: nat, max: nat)
  {
    && (forall h: nat, i: nat :: StillThere(k, h, i, eof) ==> Ending(k, h, i) <= max)
    && exists h: nat, i: nat :: StillThere(k, h, i, eof) && Ending(k, h, i) == max
  }

  lemma SurvivesThere(log: Log, k: Kept, p: seq<seq<seq<byte>>>, content: seq<byte>, base: nat, eof: nat, h: nat, i: nat)
    requires LogIs(log, k) && Salvageable(log, p, content, base)
    ensures Survives(log, eof, h, i) <==> StillThere(k, h, i, eof)
    ensures Survives(log, eof, h, i) ==> EndOf(log, h, i) == Ending(k, h, i)
  {
    hide SampleSalvageable, KeptCount, Apart, RefBytes, ClipInfo, ClipMetas, SyncsWithin, Growing;
    if h < |log.tracks| {
      assert TrackSalvageable(log.tracks[h], p[h], content, base) && TrackLogIs(log.tracks[h], k.last.states[h], k.configs[h]);
      if i < |k.last.states[h].samples| { NothingLost(log.tracks[h].samples, log.tracks[h].chunks, eof, i); }
    }
  }

  lemma SomeAreThere(log: Log, k: Kept, p: seq<seq<seq<byte>>>, content: seq<byte>, base: nat, eof: nat)
    requires LogIs(log, k) && Salvageable(log, p, content, base)
    ensures SomeSurvive(log, eof) <==> SomeStillThere(k, eof)
  {
    hide LogIs, Salvageable, Survives, StillThere;
    if SomeSurvive(log, eof) {
      var h: nat, i: nat :| Survives(log, eof, h, i);
      SurvivesThere(log, k, p, content, base, eof, h, i);
    }
    if SomeStillThere(k, eof) {
      var h: nat, i: nat :| StillThere(k, h, i, eof);
      SurvivesThere(log, k, p, content, base, eof, h, i);
    }
  }

  lemma FurthestIsThere(log: Log, k: Kept, p: seq<seq<seq<byte>>>, content: seq<byte>, base: nat, eof: nat, max: nat)
    requires LogIs(log, k) && Salvageable(log, p, content, base) && FurthestOf(log, |log.tracks|, eof, max) && max > 0
    ensures FurthestThere(k, eof, max)
  {
    hide LogIs, Salvageable, KeptCount;
    forall h: nat, i: nat | StillThere(k, h, i, eof) ensures Ending(k, h, i) <= max {
      SurvivesThere(log, k, p, content, base, eof, h, i);
      assert Survives(log, eof, h, i) && EndOf(log, h, i) <= max;
    }
    var h: nat, i: nat :| h < |log.tracks| && Survives(log, eof, h, i) && EndOf(log, h, i) == max;
    SurvivesThere(log, k, p, content, base, eof, h, i);
    assert StillThere(k, h, i, eof) && Ending(k, h, i) == max;
  }

  // ---------- whether the recovered recording can be closed ----------

  /**
     The references of this track still name tracks after recovery: it has none, or one of
     which the byte that is kept is the handle of a track it may refer to.
  */
  predicate RefsReturn(states: seq<TrackState>, s: TrackState)
  {
    || s.refs == []
    || (|s.refs| == 1 && 1 <= s.refs[0] % 0x100 <= |states|
        && (s.info.kind.Timed? || states[s.refs[0] % 0x100 - 1].info.kind.Chapters?))
  }

  /** Those of every track of which a sample is still in the file do. */
  predicate AllRefsReturn(k: Kept, eof: nat)
  {
    forall h :: 0 <= h < |k.last.states| && StillThere(k, h, 0, eof) ==> RefsReturn(k.last.states, k.last.states[h])
  }

  /** The configuration that was journalled for each of these tracks can be written to a movie box. */
  predicate AllConfigured(k: Kept, eof: nat)
  {
    forall h :: 0 <= h < |k.last.states| && h < |k.configs| && StillThere(k, h, 0, eof) ==>
      Describable(k.last.states[h].info.kind, k.configs[h])
  }

  lemma NotEmptyThere(r: Mux, k: Kept, p: seq<seq<seq<byte>>>, torn: seq<byte>, eof: nat, h: nat)
    requires RecoveredAll(r, k, p, torn, eof) && h < |r.byHandle|
    ensures r.byHandle[h].samples != [] <==> StillThere(k, h, 0, eof)
    ensures r.byHandle[h].info.kind == k.last.states[h].info.kind && r.byHandle[h].config == k.configs[h]
    ensures r.byHandle[h].refs == RefsFrom(RefBytes(k.last.states[h].refs))
  {
    hide RefsFrom, RefBytes, ClipMetas;
    assert RecoveredTrack(r.byHandle[h], k.last.states[h], k.configs[h], p[h], eof);
  }

  lemma RefsResolveWhen(r: Mux, k: Kept, p: seq<seq<seq<byte>>>, torn: seq<byte>, eof: nat, h: nat)
    requires RecoveredAll(r, k, p, torn, eof) && h < |r.byHandle|
    ensures (forall i :: 0 <= i < |r.byHandle[h].refs| ==> Resolves(r, r.byHandle[h], r.byHandle[h].refs[i]))
            <==> RefsReturn(k.last.states, k.last.states[h])
  {
    hide RefsFrom, RefBytes, RecoveredAll;
    SameCounts(r, k, p, torn, eof);
    var s, refs := k.last.states[h], r.byHandle[h].refs;
    NotEmptyThere(r, k, p, torn, eof, h);
    RefsReturned(s.refs);
    if |s.refs| == 1 && 1 <= refs[0] <= |r.byHandle| {
      NotEmptyThere(r, k, p, torn, eof, refs[0] - 1);
    }
    if |s.refs| >= 2 { assert !Resolves(r, r.byHandle[h], refs[|refs| - 1]); }
  }

  lemma SameCounts(r: Mux, k: Kept, p: seq<seq<seq<byte>>>, torn: seq<byte>, eof: nat)
    requires RecoveredAll(r, k, p, torn, eof)
    ensures |r.byHandle| == |k.last.states| == |k.configs|
  {
    hide RecoveredTrack;
  }

  /** Whether the close of a recovered recording can succeed is known from what was journalled. */
  lemma ClosableWhen(r: Mux, k: Kept, p: seq<seq<seq<byte>>>, torn: seq<byte>, eof: nat)
    requires RecoveredAll(r, k, p, torn, eof)
    ensures RefsResolve(r) <==> AllRefsReturn(k, eof)
    ensures AllDescribed(r) <==> AllConfigured(k, eof)
  {
    hide RecoveredAll, RefsReturn, StillThere, Describable, Resolves;
    SameCounts(r, k, p, torn, eof);
    forall h: nat | h < |r.byHandle|
      ensures r.byHandle[h].samples != [] <==> StillThere(k, h, 0, eof)
      ensures r.byHandle[h].info.kind == k.last.states[h].info.kind && r.byHandle[h].config == k.configs[h]
    {
      NotEmptyThere(r, k, p, torn, eof, h);
    }
    forall h: nat | h < |r.byHandle|
      ensures (forall i :: 0 <= i < |r.byHandle[h].refs| ==> Resolves(r, r.byHandle[h], r.byHandle[h].refs[i]))
              <==> RefsReturn(k.last.states, k.last.states[h])
    {
      RefsResolveWhen(r, k, p, torn, eof, h);
    }
  }

  // ---------- a crash and a recovery ----------

  /**
     What a recovery that got to closing the file has made of a recording: the tracks, the
     furthest end, and how the close went.
  */
  ghost predicate RecoveredWell(r: Mux, o: SyncResult, k: Kept, p: seq<seq<seq<byte>>>, torn: seq<byte>, left: seq<byte>, perfect: bool,
                                fixed: M.Fixed, max: nat, moov: B.Box, tiled: bool)
    reads r, r.byHandle, r.tracks, r.file, r.journal
  {
    var eof := Max(|left|, RECOVERY_BASE + 16);
    && SomeStillThere(k, eof) && FurthestThere(k, eof, max) && RECOVERY_BASE + 16 <= max <= eof
    && r.timescale == RECOVERED_TIMESCALE && r.megabytes == DEFAULT_MEGABYTES && RecoveredAll(r, k, p, torn, eof)
    && ClosedAs(r, fixed, DataBefore(left, max), max, perfect, o, moov, tiled)
    && (RefsResolve(r) <==> AllRefsReturn(k, eof)) && (AllDescribed(r) <==> AllConfigured(k, eof))
  }

  lemma FirstWritten(moov: B.Box, base: nat)
    requires B.Bounded(moov) && base >= 32
    ensures FirstAttempt(moov, base).Wrote? <==> B.Refusal(moov).None? && 32 + |B.BoxBytes(moov)| <= base
    ensures B.Refusal(moov).None? ==> !FirstAttempt(moov, base).Invalid?
  {
    hide B.Bounded, B.BoxBytes, B.Refusal;
  }

  /**
     On a device that takes every byte, the recovered recording is closed with its movie
     box exactly when the references and the configurations that were journalled allow it,
     and the box fits the reserved area or the end of the file.
  */
  lemma WrittenWhen(r: Mux, o: SyncResult, k: Kept, p: seq<seq<seq<byte>>>, torn: seq<byte>, left: seq<byte>, fixed: M.Fixed, max: nat, moov: B.Box, tiled: bool)
    requires RecoveredWell(r, o, k, p, torn, left, true, fixed, max, moov, tiled)
    ensures var eof := Max(|left|, RECOVERY_BASE + 16);
            && (o.Written? ==> AllRefsReturn(k, eof) && AllConfigured(k, eof))
            && (!AllRefsReturn(k, eof) ==> o.Failed?)
            && (AllRefsReturn(k, eof) && AllConfigured(k, eof) ==>
                  && B.Bounded(moov)
                  && (o.Written? <==> 32 + |B.BoxBytes(moov)| <= RECOVERY_BASE || RoomAtEnd(max, RECOVERY_BASE, |B.BoxBytes(moov)|)))
  {
    hide RecoveredAll, SomeStillThere, FurthestThere, AllRefsReturn, AllConfigured, RefsResolve, AllDescribed, Rewritten, Finished, OnlyData;
    hide WithinLimits, Mux.Valid, B.Bounded, B.BoxBytes, B.Refusal, RoomAtEnd, FirstAttempt, M.Moov;
    if RefsResolve(r) { FirstWritten(moov, r.Base()); }
  }

  /** The recording stopped here, with its journal as far as `k` says, and can be recovered. */
  ghost predicate Stopped(m: Mux, count: nat, k: Kept)
    reads m, m.byHandle, m.file, m.journal
  {
    && Running(m, count, k) && count <= B.MAX_ENTRY_COUNT && m.journal != null && m.intact
    && m.megabytes == DEFAULT_MEGABYTES && 0 < |m.path| < PATH_MAX && m.path[0] != 0
  }

  /**
     A crash and a recovery. The recording `m` stopped anywhere, with the journal
     committed as far as the device got and the media file cut to any length `n`.
     Recovery finds nothing exactly when no sync was completed; otherwise every track
     has the samples of the last completed sync that are still in the file, all of
     them, with their bytes, and the closed file holds them.
  */
  method CrashAndRecover(m: Mux, bytes: seq<byte>, n: nat, grants: seq<nat>, fixed: M.Fixed, ghost count: nat, ghost k: Kept)
    returns (o: Outcome, r: Option<Mux>, ghost max: nat, ghost moov: B.Box, tiled: bool)
    requires Stopped(m, count, k) && m.journal.safe <= bytes && n <= |m.file.content|
    ensures !o.Unreadable? && (o.NothingCommitted? <==> !m.synced) && (grants == [] ==> !o.NotOpened?)
    ensures o.NothingCommitted? ==> k.last.states == []
    ensures o.Emptied? ==> !SomeStillThere(k, Max(n, RECOVERY_BASE + 16))
    ensures o.Closed? ==> r.Some? && fresh(r.value) && fresh(r.value.file)
    ensures o.Closed? ==> RecoveredWell(r.value, o.result, k, Payloads(m.byHandle), m.torn, m.file.content[..n], grants == [], fixed, max, moov, tiled)
  {
    hide Mux.TracksOk, Mux.DataSafe, Mux.MetasOk, Mux.CommittedOk, Mux.PrefixOk, Mux.StepsOk, ApplyAll, JournalLeft, Salvageable, Small;
    hide RecoveredFrom, RecoveredAll, SomeSurvive, SomeStillThere, ClosedAs, LogIs, FurthestOf, FurthestThere;
    hide AllRefsReturn, AllConfigured, RefsResolve, AllDescribed, Stopped;
    ghost var left, p := m.file.content[..n], Payloads(m.byHandle);
    CrashFacts(m, bytes, n, count, k);
    var file := new DataFile(m.file.content[..n], grants);
    o, r, max, moov, tiled := Recover(bytes, file, fixed, m.journal.safe, m.synced, m.path, m.committed, m.torn, m.log, Logged(m.log, p));
    ghost var eof := Max(n, RECOVERY_BASE + 16);
    SomeAreThere(m.log, k, Logged(m.log, p), left, RECOVERY_BASE, eof);
    if o.Closed? {
      FurthestIsThere(m.log, k, Logged(m.log, p), left, RECOVERY_BASE, eof, max);
      AllRecovered(r.value, m.log, k, p, m.torn, left, RECOVERY_BASE, eof);
      ClosableWhen(r.value, k, p, m.torn, eof);
    }
  }

  lemma CrashFacts(m: Mux, bytes: seq<byte>, n: nat, count: nat, k: Kept)
    requires Stopped(m, count, k) && m.journal.safe <= bytes && n <= |m.file.content|
    ensures m.journal != null && |m.log.tracks| <= |m.byHandle| && LogIs(m.log, k) && (!m.synced ==> k.last.states == []) && |m.file.content| <= FILE_MAX
    ensures JournalLeft(bytes, m.journal.safe, m.synced, m.path, m.committed, m.torn, m.log)
    ensures Salvageable(m.log, Logged(m.log, Payloads(m.byHandle)), m.file.content[..n], RECOVERY_BASE)
  {
    hide Mux.TracksOk, Mux.MetasOk, Mux.CommittedOk, Mux.StepsOk, JournalLeft, Salvageable, TrackLogIs, Stored, Growing, Apart;
    assert WithinLimits(m);
    DataLeft(m, n, m.file.pos);
    JournalHolds(m, bytes);
  }
}
