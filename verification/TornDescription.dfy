/**
 A journal that no longer can be replayed: a video track is synced before it has a
 configuration, then gets one, and is synced again.
 */
module TornDescription {
  import opened Bytes
  import opened Wrappers
  import opened JournalFormat
  import opened JournalReplay
  import opened JournalFile
  import opened JournalReader
  import opened JournalWriter
  import opened MuxTrack
  import opened Mux

  /**
     The first sync fails for lack of a configuration, and leaves the first words of the
     description behind. The configuration is then accepted, and the second sync
     succeeds, because the track counts as described: its records, if it has samples,
     follow those words. So the configuration never gets into the journal. The device is
     full neither after the first sync nor after the second.
  */
  method DescribeTooLate(j: TablesFile, t: Track, c: Config) returns (first: bool, accepted: bool, second: bool, ghost left: nat)
    requires j.Valid() && t.Valid() && t.live && !t.infoWritten && t.info.kind.Video? && t.config.NoConfig? && Accepts(Video, c)
    modifies j, t`config, t`writtenTimes, t`writtenSyncs, t`writtenChunkMap, t`writtenSamples, t`writtenChunks, t`metaWritten, t`infoWritten
    ensures j.Valid() && !first && accepted
    ensures left > 0 && j.room > 0 ==>
              second && var s := old(t.State()).(config := Accepted(c), infoWritten := true);
              InRange(s) &&
              j.Written() == old(j.Written()) + PRecord(Trak(t.handle, ClipInfo(t.info), RefBytes(t.refs)), TornStsd(t.handle, PRecords(TrackRecords(s), [])))
  {
    hide PRecord, PRecords, TrackRecords, ClipInfo, RefBytes, Accepted, Track.Valid, InRange, TornStsd;
    ghost var before := j.Written();
    NotDescribed(t);
    TrackParts(t);
    ghost var goal := before + PRecords(TrackRecords(t.State()), []);
    first := SyncWholeTrack(j, t, goal, []);
    left := j.room;
    t.CountersValid();
    accepted := t.SetConfig(c);
    TrackParts(t);
    ghost var s, between := t.State(), j.Written();
    second := SyncWholeTrack(j, t, between + PRecords(TrackRecords(s), []), []);
    TornThen(before, Trak(t.handle, ClipInfo(t.info), RefBytes(t.refs)), t.handle, PRecords(TrackRecords(s), []));
    assert j.Written() + [] == j.Written();
  }

  lemma TornThen(before: seq<byte>, r: Record, handle: u32, t: seq<byte>)
    ensures before + PRecord(r, TornStsd(handle, [])) + t == before + PRecord(r, TornStsd(handle, t))
  {
    hide PRecord, P32;
    RecordTail(r, TornStsd(handle, []), t);
    P32Tail(HVC1, [], t);
    P32Tail(1, P32(HVC1, []), t);
    P32Tail(STSD, P32(1, P32(HVC1, [])), t);
    P32Tail(handle, P32(STSD, P32(1, P32(HVC1, []))), t);
    assert [] + t == t;
  }

  lemma NotDescribed(t: Track)
    requires !t.infoWritten && t.info.kind.Video? && t.config.NoConfig?
    ensures Undescribed(t.State())
  {
  }

  lemma TrackParts(t: Track)
    requires t.Valid()
    ensures InRange(t.State()) && ConfigSuits(t.info.kind, t.config) && t.metaWritten <= |t.metas| + 1
  {
    hide GoodMetas, GoodInfo;
  }

  // ---------- what the replay makes of it ----------

  /** What follows the first words of the description: nothing, or records, whose first words are no length of a set. */
  predicate NoLength(t: seq<byte>)
  {
    |t| < 8 || FromLE64(t[..8]) > MAX_ALLOC_SIZE
  }

  /** A record starts with a handle and a tag, which together are longer than any set. */
  lemma RecordsNoLength(rs: seq<Record>, t: seq<byte>)
    requires rs != []
    ensures NoLength(PRecords(rs, t))
  {
    hide PBody, LE32;
    var h, tag := HandleOf(rs[0]), Tag(rs[0]);
    var more := P32(Number(rs[0]) % TWO32, PBody(rs[0], PRecords(rs[1..], t)));
    var s := PRecords(rs, t);
    assert s == LE32(h) + (LE32(tag) + more);
    assert s[..8] == LE32(h) + LE32(tag);
    assert s[..8][..4] == LE32(h) && s[..8][4..] == LE32(tag);
    assert FromLE64(s[..8]) == tag * TWO32 + h;
    assert tag >= 1;
  }

  lemma TornAhead(bytes: seq<byte>, at: nat, handle: u32, t: seq<byte>)
    requires at <= |bytes| && bytes[at..] == TornStsd(handle, t) && NoLength(t)
    ensures TornDescription(bytes, at)
  {
    hide LE32, FromLE32, FromLE64;
    var s := bytes[at..];
    var s1, s2, s3 := P32(STSD, P32(1, P32(HVC1, t))), P32(1, P32(HVC1, t)), P32(HVC1, t);
    P32Front(handle, s1);
    P32Front(STSD, s2);
    P32Front(1, s3);
    P32Front(HVC1, t);
    assert s[4..] == s1 && s1[4..] == s2 && s2[4..] == s3 && s3[4..] == t;
    assert bytes[at + 4..at + 8] == s1[..4] && bytes[at + 12..at + 16] == s3[..4];
    assert at + 16 + |t| == |bytes|;
    if |t| >= 8 { assert bytes[at + 16..at + 24] == t[..8]; }
  }

  /**
     The first two turns of a replay of such a journal: the track is recovered, and the
     description that is cut short is fatal, whatever records follow it. Nothing of the
     recording is recovered.
  */
  method ReplayTorn(m: Mux, c: Cursor, ghost info: TrackInfo, ghost refs: seq<byte>, ghost more: seq<Record>) returns (first: ReadStatus, second: ReadStatus)
    requires InOrder(m) && m.CoverOk() && c.Valid() && m.tracks == [] && m.metas == [] && m.cover.None?
    requires GoodInfo(info) && |refs| <= REFS_SIZE && info.kind.Video?
    requires c.Rest() == PRecord(Trak(1, info, refs), TornStsd(1, PRecords(more, [])))
    modifies c`pos, m`tracks, m`byHandle, m`metas, m`cover, m.tracks
    ensures first.Read? && second.Fatal?
  {
    hide PRecord, PRecords, TornStsd, InOrder, TornDescription, Replayable, GoodInfo, Headless;
    ghost var rest := TornStsd(1, PRecords(more, []));
    NothingYet(m, info, refs);
    first := ReadRecord(m, c, true, Trak(1, info, refs), rest, None);
    OneVideo(m, info, refs);
    MoreNoLength(more);
    TornAhead(c.bytes, c.pos, 1, PRecords(more, []));
    second := ReadRecord(m, c, false, Cover(0, []), [], None);
  }

  lemma MoreNoLength(more: seq<Record>)
    ensures NoLength(PRecords(more, []))
  {
    hide PRecord;
    if more != [] { RecordsNoLength(more, []); }
  }

  lemma NothingYet(m: Mux, info: TrackInfo, refs: seq<byte>)
    requires m.tracks == [] && m.metas == [] && m.cover.None? && GoodInfo(info) && |refs| <= REFS_SIZE
    ensures LogOf(m) == EMPTY_LOG && ChaptersPlain(LogOf(m)) && Replayable(Trak(1, info, refs), LogOf(m))
  {
    hide GoodInfo;
  }

  lemma OneVideo(m: Mux, info: TrackInfo, refs: seq<byte>)
    requires GoodInfo(info) && |refs| <= REFS_SIZE && info.kind.Video? && LogOf(m) == Apply(Trak(1, info, refs), EMPTY_LOG)
    ensures OnlyVideo(m)
  {
    hide GoodInfo;
    forall i | 0 <= i < |m.tracks| ensures m.tracks[i].info.kind.Video? {
      assert LogOf(m).tracks[i] == m.tracks[i].View();
    }
  }
}
