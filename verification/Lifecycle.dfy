/**
 A recording from its start to its playback, through a crash: what a user added
 before the last completed sync, as far as it is still in the media file, is what the
 demuxer finds in the recovered file.
 */
module Lifecycle {
  import opened Bytes
  import opened Wrappers
  import opened TimeTable
  import opened JournalFormat
  import opened JournalReplay
  import opened JournalReader
  import opened JournalFile
  import opened MuxTrack
  import opened MuxFile
  import opened Mux
  import opened MuxSync
  import opened ConfigBytes
  import opened Script
  import opened Recording
  import opened Recovery
  import opened CrashSafety
  import B = BoxTree
  import D = DemuxTrack
  import K = Metadata
  import M = Movie
  import P = RoundTrip
  import S = Search
  import SF = DataSafety
  import T = MovieTexts

  // ---------- the last completed sync ----------

  /** Which operation was the last completed sync. */
  function LastSync(notes: seq<Note>): (j: nat)
    requires SomeJournalled(notes)
    ensures j < |notes| && notes[j].journalled && forall i :: j < i < |notes| ==> !notes[i].journalled
  {
    var k := |notes| - 1;
    if notes[k].journalled then k
    else
      assert SomeJournalled(notes[..k]) by {
        var i :| 0 <= i < |notes| && notes[i].journalled;
        assert notes[..k][i].journalled;
      }
      LastSync(notes[..k])
  }

  /** The journal has what the last completed sync found, or nothing. */
  lemma {:induction false} KeptIsLast(notes: seq<Note>)
    ensures LastKept(notes).last == if SomeJournalled(notes) then notes[LastSync(notes)].snap else NOTHING
  {
    if notes != [] {
      var k := |notes| - 1;
      KeptIsLast(notes[..k]);
      if !notes[k].journalled {
        assert SomeJournalled(notes) <==> SomeJournalled(notes[..k]) by {
          if SomeJournalled(notes) {
            var i :| 0 <= i < |notes| && notes[i].journalled;
            assert notes[..k][i].journalled;
          }
        }
      }
    }
  }

  /** The last completed sync that wrote the description of track `h`: it is written once, and again when the track has a new reference. */
  ghost predicate WroteDescription(notes: seq<Note>, h: nat, n: nat)
  {
    && n < |notes| && notes[n].journalled && h < |notes[n].snap.states|
    && (!notes[n].snap.states[h].infoWritten || h >= |LastKept(notes[..n]).last.states|)
    && forall j :: n < j < |notes| && notes[j].journalled ==> h < |notes[j].snap.states| && notes[j].snap.states[h].infoWritten
  }

  /** What the journal has of a configuration is what the track had then. */
  lemma {:induction false} ConfigIsOfThen(notes: seq<Note>, h: nat) returns (n: nat)
    requires h < |LastKept(notes).configs|
    ensures |LastKept(notes).configs| == |LastKept(notes).last.states|
    ensures WroteDescription(notes, h, n)
    ensures var s := notes[n].snap.states[h]; LastKept(notes).configs[h] == ClipConfig(s.info.kind, s.config)
  {
    hide ClipConfig;
    var k := |notes| - 1;
    var before := LastKept(notes[..k]);
    ConfigsOfStates(notes[..k]);
    ConfigsOfStates(notes);
    if notes[k].journalled && (!notes[k].snap.states[h].infoWritten || h >= |before.configs|) {
      n := k;
    } else {
      n := ConfigIsOfThen(notes[..k], h);
      assert notes[..k][..n] == notes[..n] && notes[..k][n] == notes[n];
      assert forall j :: n < j < k ==> notes[..k][j] == notes[j];
    }
  }

  lemma {:induction false} ConfigsOfStates(notes: seq<Note>)
    ensures |LastKept(notes).configs| == |LastKept(notes).last.states|
  {
    if notes != [] { ConfigsOfStates(notes[..|notes| - 1]); }
  }

  /** What the recording contained at the last completed sync. */
  ghost function SyncedContent(ops: seq<Op>, notes: seq<Note>, replies: seq<Reply>): Content
    requires |notes| == |replies| == |ops| && forall i :: 0 <= i < |ops| ==> Sane(ops[i])
  {
    if SomeJournalled(notes) then Final(ops[..LastSync(notes)], replies[..LastSync(notes)]) else EMPTY
  }

  lemma SyncedFacts(ops: seq<Op>, notes: seq<Note>, replies: seq<Reply>, perfect: bool)
    requires |notes| == |replies| == |ops| && (forall i :: 0 <= i < |ops| ==> Sane(ops[i])) && Followed(ops, notes, replies, perfect)
    ensures var c := SyncedContent(ops, notes, replies);
            Shows(LastKept(notes).last, c) && Whole(c) && Grows(c, Final(ops, replies))
  {
    hide Final, Sane, Shows, Answered, Whole, Grows, LastKept, LastSync;
    KeptIsLast(notes);
    NothingShows();
    if SomeJournalled(notes) {
      var j := LastSync(notes);
      FinalWhole(ops[..j], replies[..j]);
      FinalGrows(ops, replies, j);
    } else {
      EmptyGrows(Final(ops, replies));
    }
  }

  lemma NothingShows()
    ensures Shows(NOTHING, EMPTY) && Whole(EMPTY)
  {
  }

  lemma EmptyGrows(c: Content)
    ensures Grows(EMPTY, c)
  {
  }

  // ---------- what is recovered of it ----------

  /** Where sample `i` of a track ends. */
  function End(x: Sample): nat
  {
    x.offset + x.size
  }

  /** Of a track, exactly the samples that end within `eof` were recovered: they are its first ones, with their bytes. */
  ghost predicate TrackLeftOf(t: Track, c: TrackContent, eof: nat)
    reads t
  {
    var n := |t.samples|;
    && n <= |c.samples| && n <= |c.payloads| && (forall i :: 0 <= i < |c.samples| ==> (i < n <==> End(c.samples[i]) <= eof))
    && t.samples == c.samples[..n] && t.payloads == c.payloads[..n] && OwnChunks(t.samples, t.chunks)
    && InfoKept(t.info, c.info) && t.refs == RefsFrom(RefBytes(c.refs))
    && (c.samples != [] ==> t.syncs == c.syncs && MetasKept(t.metas, c.metas))
  }

  /** The same for all tracks, by handle. */
  ghost predicate AllLeftOf(r: Mux, c: Content, eof: nat)
    reads r`byHandle, r.byHandle
  {
    |r.byHandle| == |c.tracks| && forall h :: 0 <= h < |c.tracks| ==> TrackLeftOf(r.byHandle[h], c.tracks[h], eof)
  }

  lemma TrackIsLeft(t: Track, s: TrackState, config: Config, p: seq<seq<byte>>, c: TrackContent, eof: nat)
    requires RecoveredTrack(t, s, config, p, eof) && WholeTrack(c) && c.payloads <= p
    requires s.info == c.info && s.refs == c.refs && s.metas == c.metas && s.samples == c.samples && s.syncs == c.syncs
    ensures TrackLeftOf(t, c, eof)
  {
    hide InfoKept, MetasKept, RefsFrom, RefBytes;
    assert p[..|c.payloads|] == c.payloads;
    assert t.payloads == p[..|t.payloads|] == c.payloads[..|t.payloads|];
  }

  lemma AllAreLeft(r: Mux, k: Kept, p: seq<seq<seq<byte>>>, torn: seq<byte>, c: Content, now: Content, eof: nat)
    requires RecoveredAll(r, k, p, torn, eof) && Shows(k.last, c) && Whole(c) && Grows(c, now)
    requires |p| == |now.tracks| && forall h :: 0 <= h < |p| ==> p[h] == now.tracks[h].payloads
    ensures AllLeftOf(r, c, eof)
  {
    hide RecoveredTrack, WholeTrack, TrackLeftOf, ClipMetas;
    forall h | 0 <= h < |c.tracks| ensures TrackLeftOf(r.byHandle[h], c.tracks[h], eof) {
      assert WholeTrack(c.tracks[h]) && TrackGrows(c.tracks[h], now.tracks[h]);
      TrackIsLeft(r.byHandle[h], k.last.states[h], k.configs[h], p[h], c.tracks[h], eof);
    }
  }

  /** Some sample of the recording is still in the file. */
  ghost predicate SomeLeftOf(c: Content, eof: nat)
  {
    exists h: nat, i: nat :: h < |c.tracks| && i < |c.tracks[h].samples| && End(c.tracks[h].samples[i]) <= eof
  }

  lemma LeftWhenThere(k: Kept, c: Content, eof: nat)
    requires Shows(k.last, c)
    ensures SomeStillThere(k, eof) <==> SomeLeftOf(c, eof)
  {
    if SomeStillThere(k, eof) {
      var h: nat, i: nat :| StillThere(k, h, i, eof);
      assert h < |c.tracks| && i < |c.tracks[h].samples| && End(c.tracks[h].samples[i]) <= eof;
    }
    if SomeLeftOf(c, eof) {
      var h: nat, i: nat :| h < |c.tracks| && i < |c.tracks[h].samples| && End(c.tracks[h].samples[i]) <= eof;
      assert StillThere(k, h, i, eof);
    }
  }

  lemma PayloadsOf(m: Mux)
    ensures |Payloads(m.byHandle)| == |ContentOf(m).tracks|
    ensures forall h :: 0 <= h < |m.byHandle| ==> Payloads(m.byHandle)[h] == ContentOf(m).tracks[h].payloads
  {
  }

  // ---------- recording, crash, recovery ----------

  /** What a crash leaves: how far the media file is there, and what follows the committed bytes of the journal. */
  datatype Crash = Crash(length: nat, tail: seq<byte>)

  /** The length field of the journal, or the length of its header while nothing is committed. */
  function CommittedLength(journal: seq<byte>, path: seq<byte>): nat
    requires |journal| >= SIZE_AT + 8
  {
    var size := FromLE64(journal[SIZE_AT..SIZE_AT + 8]);
    if size == 0 then 32 + |path| else size
  }

  lemma HeaderSize(size: u64, megabytes: u64, path: seq<byte>, t: seq<byte>)
    ensures var s := PHeader(size, megabytes, path, t);
            |s| >= SIZE_AT + 8 && FromLE64(s[SIZE_AT..SIZE_AT + 8]) == size && |s| == 32 + |path| + |t|
  {
    hide P32, P64, PArr32, FromLE64, FromLE32, LE64;
    var sized := P64(size, P64(megabytes, PArr32(path, P32(0, t))));
    P64Front(size, P64(megabytes, PArr32(path, P32(0, t))));
    P32Front(VERSION, sized);
    P32Front(MAGIC, P32(VERSION, sized));
    var s := PHeader(size, megabytes, path, t);
    assert s[4..][4..] == s[8..];
    assert s[8..][..8] == s[8..16];
    HeaderLength(size, megabytes, path, t);
  }

  /** The committed bytes are as many as the length field says. */
  lemma CommittedBytes(m: Mux)
    requires m.JournalOk() && m.journal != null
    ensures |m.journal.content| >= SIZE_AT + 8 && CommittedLength(m.journal.content, m.path) <= |m.journal.content|
    ensures m.journal.content[..CommittedLength(m.journal.content, m.path)] == m.journal.safe
  {
    hide PHeader, PRecords, PartOfCover, ApplyAll, FromLE64;
    var size: u64 := if m.synced then |m.journal.safe| else 0;
    HeaderSize(size, m.megabytes, m.path, PRecords(m.committed, m.torn));
    NoRecords();
    var s := m.journal.safe;
    assert m.journal.content[SIZE_AT..SIZE_AT + 8] == s[SIZE_AT..SIZE_AT + 8];
  }

  function LeftOf(content: seq<byte>, crash: Crash): seq<byte>
  {
    content[..Min(crash.length, |content|)]
  }

  /** How far recovery finds the media file to reach once it has opened it. */
  function ReopenedEnd(content: seq<byte>, crash: Crash): nat
  {
    Max(|LeftOf(content, crash)|, RECOVERY_BASE + 16)
  }

  /** The path of a recording is a string of C. */
  predicate IsPath(path: seq<byte>)
  {
    forall i :: 0 <= i < |path| ==> path[i] != 0
  }

  /** What a user has to stay within: the values of C, keys, configurations and covers the journal can hold, and no more than a million tracks and samples. */
  ghost predicate WithinReason(ops: seq<Op>)
  {
    (forall i :: 0 <= i < |ops| ==> Sane(ops[i])) && AllModest(ops) && Count(ops) <= MAX_ITEM_NUMBER
  }

  /** Every track has the configuration it had when the last completed sync that described it was made. */
  ghost predicate ConfigsLeftOf(r: Mux, ops: seq<Op>, notes: seq<Note>, replies: seq<Reply>)
    requires |notes| == |replies| == |ops| && forall i :: 0 <= i < |ops| ==> Sane(ops[i])
    reads r`byHandle, r.byHandle
  {
    forall h :: 0 <= h < |r.byHandle| ==> ConfigLeftOf(r.byHandle[h], ops, notes, replies, h)
  }

  ghost predicate ConfigLeftOf(t: Track, ops: seq<Op>, notes: seq<Note>, replies: seq<Reply>, h: nat)
    requires |notes| == |replies| == |ops| && forall i :: 0 <= i < |ops| ==> Sane(ops[i])
    reads t
  {
    exists n: nat :: ConfigIsFrom(t, ops, notes, replies, h, n)
  }

  ghost predicate ConfigIsFrom(t: Track, ops: seq<Op>, notes: seq<Note>, replies: seq<Reply>, h: nat, n: nat)
    requires |notes| == |replies| == |ops| && forall i :: 0 <= i < |ops| ==> Sane(ops[i])
    reads t
  {
    && WroteDescription(notes, h, n)
    && var c := Final(ops[..n], replies[..n]);
       h < |c.tracks| && ConfigKept(c.tracks[h].info.kind, t.config, c.tracks[h].config)
  }

  lemma {:induction false} ConfigsAreLeft(r: Mux, ops: seq<Op>, notes: seq<Note>, replies: seq<Reply>, perfect: bool, p: seq<seq<seq<byte>>>, torn: seq<byte>, eof: nat)
    requires |notes| == |replies| == |ops| && (forall i :: 0 <= i < |ops| ==> Sane(ops[i])) && Followed(ops, notes, replies, perfect)
    requires RecoveredAll(r, LastKept(notes), p, torn, eof)
    ensures ConfigsLeftOf(r, ops, notes, replies)
  {
    hide Sane, Final, WroteDescription, ConfigKept, ClipConfig, LastKept, InfoKept, MetasKept, Answered, RefBytes, RefsFrom;
    forall h | 0 <= h < |r.byHandle| ensures ConfigLeftOf(r.byHandle[h], ops, notes, replies, h) {
      assert RecoveredTrack(r.byHandle[h], LastKept(notes).last.states[h], LastKept(notes).configs[h], p[h], eof);
      var n := ConfigIsOfThen(notes, h);
      WroteThere(notes, h, n);
      var s := notes[n].snap.states[h];
      ConfigSurvives(s.info.kind, r.byHandle[h].config, s.config);
      assert Shows(notes[n].snap, Final(ops[..n], replies[..n]));
      assert ConfigIsFrom(r.byHandle[h], ops, notes, replies, h, n);
    }
  }

  lemma WroteThere(notes: seq<Note>, h: nat, n: nat)
    requires WroteDescription(notes, h, n)
    ensures n < |notes| && h < |notes[n].snap.states|
  {
  }

  /** Everything the crash of a recording and its recovery made of what the user asked for. */
  ghost predicate Survived(m: Mux, ops: seq<Op>, notes: seq<Note>, replies: seq<Reply>, crash: Crash, o: Outcome, r: Option<Mux>)
    requires |notes| == |replies| == |ops| && forall i :: 0 <= i < |ops| ==> Sane(ops[i])
    reads m.file`content, if r.Some? then {r.value} else {}, if r.Some? then r.value.byHandle else []
  {
    var synced, eof := SyncedContent(ops, notes, replies), ReopenedEnd(m.file.content, crash);
    && !o.Unreadable? && (o.NothingCommitted? <==> !SomeJournalled(notes))
    && (o.Emptied? ==> !SomeLeftOf(synced, eof))
    && (o.Closed? ==> r.Some? && SomeLeftOf(synced, eof) && AllLeftOf(r.value, synced, eof) && ConfigsLeftOf(r.value, ops, notes, replies))
  }

  /**
     A recording, a crash, and the recovery, for anything a user may reasonably ask for
     and any failure of the devices. When the recording could be opened, the recovery says
     that nothing was committed exactly when no sync was completed; otherwise it gives by
     handle exactly the samples the user had added before the last completed sync that are
     still in the file, with their bytes.
  */
  method RecordAndRecover(timescale: u32, path: seq<byte>, file: DataFile, journal: TablesFile, ops: seq<Op>, crash: Crash, grants: seq<nat>, fixed: M.Fixed)
    returns (m: Option<Mux>, o: Outcome, r: Option<Mux>, ghost done: nat, ghost notes: seq<Note>, ghost replies: seq<Reply>,
             ghost max: nat, ghost moov: B.Box, tiled: bool)
    requires file.Valid() && file.pos == 0 && journal.Valid() && journal.pos == 0 && journal.safe == []
    requires WithinReason(ops) && IsPath(path)
    modifies file, journal
    ensures old(file.grants) == [] && old(journal.room) >= 32 + |path| && 0 < |path| < PATH_MAX ==> m.Some?
    ensures m.Some? ==> done <= |ops| && |notes| == |replies| == done && (done == |ops| || m.value.ended) && m.value.file == file
    ensures m.Some? && m.value.ended ==> done > 0 && ops[done - 1].SyncNow? && Excused(ops[done - 1].lands, notes[done - 1], journal)
    ensures m.Some? ==> NotesOf(notes, ops, true) && Followed(ops[..done], notes, replies, old(file.grants) == [])
    ensures m.Some? ==> ContentOf(m.value) == Final(ops[..done], replies) && m.value.DataSafe(file.pos)
    ensures m.Some? ==> Survived(m.value, ops[..done], notes, replies, crash, o, r) && (grants == [] ==> !o.NotOpened?)
    ensures m.Some? && o.Closed? ==>
              && r.Some? && fresh(r.value) && fresh(r.value.file)
              && RecoveredWell(r.value, o.result, LastKept(notes), Payloads(m.value.byHandle), m.value.torn, LeftOf(file.content, crash),
                               grants == [], fixed, max, moov, tiled)
  {
    hide Running, NotesOf, Followed, Final, TracksOf, RecoveredWell, Survived, LastKept, AllModest, Sane, Count, SomeJournalled, AllWithin, Excused, Mux.DataSafe, Mux.JournalOk, FromLE64, Stopped;
    o, r, max, moov, tiled := Unreadable, None, 0, B.Opaque(0, []), false;
    ghost var perfect := file.grants == [];
    LimitsHold(ops);
    m, done, notes, replies := Recording.Record(timescale, DEFAULT_MEGABYTES, path, file, journal, ops);
    if m.None? { return; }
    CountMonotone(ops, done);
    StoppedThere(m.value, Count(ops[..done]), LastKept(notes));
    CommittedBytes(m.value);
    o, r, max, moov, tiled :=
      CrashAndRecover(m.value, journal.content[..CommittedLength(journal.content, path)] + crash.tail, Min(crash.length, |file.content|), grants, fixed, Count(ops[..done]), LastKept(notes));
    SurvivesCrash(m.value, ops[..done], notes, replies, perfect, crash, o, r, grants == [], fixed, max, moov, tiled);
  }

  lemma LimitsHold(ops: seq<Op>)
    requires WithinReason(ops)
    ensures (forall i :: 0 <= i < |ops| ==> Sane(ops[i])) && AllModest(ops) && Count(ops) <= MAX_ITEM_NUMBER <= B.MAX_ENTRY_COUNT
  {
    hide Sane, AllModest, Count;
  }

  lemma StoppedThere(m: Mux, count: nat, k: Kept)
    requires Running(m, count, k) && count <= B.MAX_ENTRY_COUNT && m.journal != null && m.intact
    requires m.megabytes == DEFAULT_MEGABYTES && 0 < |m.path| < PATH_MAX && IsPath(m.path)
    ensures Stopped(m, count, k) && m.DataSafe(m.file.pos) && m.JournalOk()
  {
    hide Mux.TracksOk, Mux.MetasOk, Mux.JournalOk, Mux.LogOk, Mux.DataSafe, Small, LogIs;
  }

  lemma SurvivesCrash(m: Mux, ops: seq<Op>, notes: seq<Note>, replies: seq<Reply>, perfect: bool, crash: Crash, o: Outcome, r: Option<Mux>,
                      grants: bool, fixed: M.Fixed, max: nat, moov: B.Box, tiled: bool)
    requires |notes| == |replies| == |ops| && (forall i :: 0 <= i < |ops| ==> Sane(ops[i])) && Followed(ops, notes, replies, perfect)
    requires ContentOf(m) == Final(ops, replies) && (m.synced <==> SomeJournalled(notes))
    requires !o.Unreadable? && (o.NothingCommitted? <==> !m.synced)
    requires o.Emptied? ==> !SomeStillThere(LastKept(notes), ReopenedEnd(m.file.content, crash))
    requires o.Closed? ==>
               r.Some? && RecoveredWell(r.value, o.result, LastKept(notes), Payloads(m.byHandle), m.torn, LeftOf(m.file.content, crash), grants, fixed, max, moov, tiled)
    ensures Survived(m, ops, notes, replies, crash, o, r)
  {
    hide Final, Sane, Followed, LastKept, SomeJournalled, SyncedContent, Shows, Whole, Grows, TracksOf;
    hide SomeStillThere, FurthestThere, RecoveredAll, ClosedAs, AllRefsReturn, AllConfigured, RefsResolve, AllDescribed, AllLeftOf, SomeLeftOf, ConfigsLeftOf;
    var synced, eof := SyncedContent(ops, notes, replies), ReopenedEnd(m.file.content, crash);
    SyncedFacts(ops, notes, replies, perfect);
    LeftWhenThere(LastKept(notes), synced, eof);
    PayloadsOf(m);
    if o.Closed? {
      AllAreLeft(r.value, LastKept(notes), Payloads(m.byHandle), m.torn, synced, Final(ops, replies), eof);
      ConfigsAreLeft(r.value, ops, notes, replies, perfect, Payloads(m.byHandle), m.torn, eof);
    }
  }

  // ---------- playing it back ----------

  /** The demuxer's track has exactly the samples of this one that end within `eof`: sizes, offsets, bytes, sync samples, and times if all steps fit. */
  ghost predicate PlaysBack(d: D.Track, c: TrackContent, content: seq<byte>, eof: nat)
    reads d
  {
    var n := |d.sampleSize|;
    && n == |d.sampleOffset| == |d.sampleDecodingTime| && n <= |c.samples| && n <= |c.payloads| && d.timescale == c.info.timescale
    && (forall i :: 0 <= i < |c.samples| ==> (i < n <==> End(c.samples[i]) <= eof))
    && (forall i :: 0 <= i < n ==>
          && d.sampleSize[i] == c.samples[i].size && d.sampleOffset[i] == c.samples[i].offset && End(c.samples[i]) <= |content|
          && content[c.samples[i].offset..End(c.samples[i])] == c.payloads[i])
    && (Rebased(DtsOf(c.samples[..n]), d.sampleDecodingTime) <==> StepsFit(DtsOf(c.samples[..n])))
    && forall i :: 0 <= i < n ==> (S.IsSync(d.sync, i) <==> c.syncs == [] || i + 1 in c.syncs)
  }

  /** Track `h` of the recording still has a sample in the file. */
  predicate HasSome(c: Content, h: nat, eof: nat)
  {
    h < |c.tracks| && c.tracks[h].samples != [] && End(c.tracks[h].samples[0]) <= eof
  }

  /** Every such track is played back. */
  ghost predicate AllPlayBack(tracks: seq<D.Track>, c: Content, content: seq<byte>, eof: nat)
    reads tracks
  {
    forall h: nat :: HasSome(c, h, eof) ==> exists j :: 0 <= j < |tracks| && PlaysBack(tracks[j], c.tracks[h], content, eof)
  }

  /** The first step of no such track is the one that the run-length loop takes for none. */
  predicate StepsCounted(c: Content, eof: nat)
  {
    forall h :: 0 <= h < |c.tracks| && |c.tracks[h].samples| > 1 && End(c.tracks[h].samples[1]) <= eof ==>
      Step32(c.tracks[h].samples[0].dts, c.tracks[h].samples[1].dts) != U32_MAX
  }

  lemma ReadIsPlayed(d: D.Track, t: Track, c: TrackContent, content: seq<byte>, eof: nat)
    requires TrackLeftOf(t, c, eof) && P.ReadBackAs(d, t, content) && c.samples != []
    ensures PlaysBack(d, c, content, eof)
  {
    hide Rebased, StepsFit, RefsFrom, RefBytes, ClipMetas;
    assert t.State().samples == t.samples && t.State().syncs == t.syncs;
    forall i | 0 <= i < |d.sampleSize|
      ensures d.sampleSize[i] == c.samples[i].size && d.sampleOffset[i] == c.samples[i].offset
      ensures End(c.samples[i]) <= |content| && content[c.samples[i].offset..End(c.samples[i])] == c.payloads[i]
    {
      assert t.samples[i] == c.samples[i] && t.payloads[i] == c.payloads[i];
    }
  }

  lemma SomeRead(r: Mux, c: Content, eof: nat, h: nat)
    requires AllLeftOf(r, c, eof) && h < |c.tracks|
    ensures HasSome(c, h, eof) <==> r.byHandle[h].samples != []
    ensures P.TimesCounted(r.byHandle[h].State()) <==>
            !(|c.tracks[h].samples| > 1 && End(c.tracks[h].samples[1]) <= eof) || Step32(c.tracks[h].samples[0].dts, c.tracks[h].samples[1].dts) != U32_MAX
  {
    hide RefsFrom, RefBytes, ClipMetas, Step32;
    assert TrackLeftOf(r.byHandle[h], c.tracks[h], eof);
    var t := r.byHandle[h];
    assert t.State().samples == t.samples;
    if |t.samples| > 1 { assert t.samples[0] == c.tracks[h].samples[0] && t.samples[1] == c.tracks[h].samples[1]; }
  }

  /** Whether the times account for all samples does not depend on the order of the tracks. */
  lemma CountedByHandle(r: Mux, c: Content, eof: nat)
    requires r.TracksOk() && AllLeftOf(r, c, eof)
    ensures P.AllCounted(r) <==> StepsCounted(c, eof)
  {
    hide Mux.TracksOk, AllLeftOf, P.TimesCounted, Track.State, Step32, Track.Valid;
    r.SameTracks();
    LeftCounts(r, c, eof);
    if P.AllCounted(r) {
      forall h | 0 <= h < |c.tracks| && |c.tracks[h].samples| > 1 && End(c.tracks[h].samples[1]) <= eof
        ensures Step32(c.tracks[h].samples[0].dts, c.tracks[h].samples[1].dts) != U32_MAX
      {
        SomeRead(r, c, eof, h);
        assert r.byHandle[h] in r.tracks;
        OneSampleCounts(r.byHandle[h].State());
        StateSamples(r.byHandle[h]);
      }
    }
    if StepsCounted(c, eof) {
      forall i | 0 <= i < |r.tracks| && r.tracks[i].samples != [] ensures P.TimesCounted(r.tracks[i].State()) {
        assert r.tracks[i] == r.byHandle[r.tracks[i].handle - 1];
        SomeRead(r, c, eof, r.tracks[i].handle - 1);
      }
    }
  }

  lemma LeftCounts(r: Mux, c: Content, eof: nat)
    requires AllLeftOf(r, c, eof)
    ensures |r.byHandle| == |c.tracks|
  {
    hide TrackLeftOf;
  }

  lemma OneSampleCounts(s: TrackState)
    ensures s.samples == [] ==> P.TimesCounted(s)
  {
  }

  lemma StateSamples(t: Track)
    ensures t.State().samples == t.samples
  {
  }

  lemma PlayedByHandle(r: Mux, c: Content, eof: nat, tracks: seq<D.Track>, content: seq<byte>)
    requires r.TracksOk() && AllLeftOf(r, c, eof) && P.AllReadBack(r, tracks, content)
    ensures AllPlayBack(tracks, c, content, eof)
  {
    hide Mux.TracksOk, Track.State, Track.Valid, P.ReadBackAs, TrackLeftOf, PlaysBack, P.Place, Rows;
    r.SameTracks();
    forall h: nat | HasSome(c, h, eof) ensures exists j :: 0 <= j < |tracks| && PlaysBack(tracks[j], c.tracks[h], content, eof) {
      SomeRead(r, c, eof, h);
      assert r.byHandle[h] in r.tracks;
      var i :| 0 <= i < |r.tracks| && r.tracks[i] == r.byHandle[h];
      ReadIsPlayed(tracks[P.Place(Rows(r), i)], r.byHandle[h], c.tracks[h], content, eof);
    }
  }

  /** What a close wrote of a recovered recording. */
  lemma ClosedFacts(r: Mux, fixed: M.Fixed, data: seq<byte>, size: nat, perfect: bool, moov: B.Box, tiled: bool)
    requires ClosedAs(r, fixed, data, size, perfect, SyncResult.Written, moov, tiled)
    ensures r.Valid() && r.TracksOk() && WithinLimits(r) && RefreshedFrom(r, r.byHandle, Mux.States(r.byHandle)) && Finished(r, fixed, data, moov, tiled)
  {
    hide Finished, OnlyData, AsIntended, WithinLimits, RefreshedFrom, Mux.TracksOk, Mux.MetasOk, Mux.JournalOk, Mux.LogOk, Mux.DataSafe;
  }

  /**
     A recovered recording that was closed, with the gap after its movie box filled, is
     read back by the demuxer: each track that had samples in the file has them again. It
     is refused only if the first step of some track is 2^32-1 ticks, a value of the
     metadata cannot be read, the text of a chapter is not in the file, or a parameter set
     is longer than 65535 bytes.
  */
  method PlayRecovered(r: Mux, ghost c: Content, ghost eof: nat, ghost fixed: M.Fixed, ghost data: seq<byte>, ghost size: nat, ghost perfect: bool,
                       ghost moov: B.Box)
    returns (tracks: seq<D.Track>, descs: seq<Desc>, extras: P.Extras, ok: bool)
    requires ClosedAs(r, fixed, data, size, perfect, SyncResult.Written, moov, true) && P.PlainKeys(r)
    requires AllLeftOf(r, c, eof) && r.timescale > 0
    ensures ok && P.AllToldBack(r, descs) <==>
              P.AllCarried(r) && StepsCounted(c, eof) && P.ValuesRead(r) && P.ChaptersThere(Rows(r), r.file.content)
    ensures ok ==> StepsCounted(c, eof) && AllPlayBack(tracks, c, r.file.content, eof) && P.ExtrasBack(r, tracks, extras)
    ensures ok ==> forall k :: 0 <= k < |tracks| ==> fresh(tracks[k]) && tracks[k].Valid()
  {
    hide ClosedAs, AllLeftOf, StepsCounted, AllPlayBack, P.AllCarried, P.AllToldBack, P.AllCounted, P.AllReadBack, P.ValuesRead, P.PlainKeys;
    hide P.ChaptersThere, P.ExtrasBack, Rows;
    hide Finished, WithinLimits, RefreshedFrom, Mux.TracksOk, Mux.Valid, B.Bounded, B.BoxBytes, Mux.States, D.Track.Valid;
    ClosedFacts(r, fixed, data, size, perfect, moov, true);
    CountedByHandle(r, c, eof);
    tracks, descs, extras, ok := P.ReadBack(r, fixed, data, moov, r.byHandle, Mux.States(r.byHandle));
    if ok { PlayedByHandle(r, c, eof, tracks, r.file.content); }
  }

  /** The configurations journalled for the tracks that are still there have parameter sets of at most 65535 bytes. */
  predicate AllCarriedBack(k: Kept, eof: nat)
  {
    forall h :: 0 <= h < |k.last.states| && h < |k.configs| && StillThere(k, h, 0, eof) ==> Carried(k.last.states[h].info.kind, k.configs[h])
  }

  lemma CarriedByHandle(r: Mux, k: Kept, p: seq<seq<seq<byte>>>, torn: seq<byte>, eof: nat)
    requires r.TracksOk() && RecoveredAll(r, k, p, torn, eof)
    ensures P.AllCarried(r) <==> AllCarriedBack(k, eof)
  {
    hide Mux.TracksOk, RecoveredAll, Carried, StillThere;
    r.SameTracks();
    SameCounts(r, k, p, torn, eof);
    if P.AllCarried(r) {
      forall h | 0 <= h < |k.last.states| && StillThere(k, h, 0, eof) ensures Carried(k.last.states[h].info.kind, k.configs[h]) {
        NotEmptyThere(r, k, p, torn, eof, h);
        assert r.byHandle[h] in r.tracks;
      }
    }
    if AllCarriedBack(k, eof) {
      forall i | 0 <= i < |r.tracks| && r.tracks[i].samples != [] ensures Carried(r.tracks[i].info.kind, r.tracks[i].config) {
        assert r.tracks[i] == r.byHandle[r.tracks[i].handle - 1];
        NotEmptyThere(r, k, p, torn, eof, r.tracks[i].handle - 1);
      }
    }
  }

  /** The journalled values of the file and of the tracks that are still there can be read. */
  ghost predicate AllValuedBack(k: Kept, eof: nat)
  {
    && T.Valued(k.last.metas)
    && forall h :: 0 <= h < |k.last.states| && StillThere(k, h, 0, eof) ==> T.Valued(k.last.states[h].metas)
  }

  /** Clipping makes no value readable, and none that was unreadable. */
  lemma ValuedClipped(ms: seq<K.Meta>)
    ensures T.Valued(ClipMetas(ms)) <==> T.Valued(ms)
  {
    hide Storage;
    forall i | 0 <= i < |ms| ensures Storage(ClipMeta(ms[i]).key) == T.IN_ROOT <==> Storage(ms[i].key) == T.IN_ROOT {
      RootClipped(ms[i]);
    }
  }

  lemma RootClipped(m: K.Meta)
    ensures Storage(ClipMeta(m).key) == T.IN_ROOT <==> Storage(m.key) == T.IN_ROOT
  {
  }

  lemma FileMetasBack(r: Mux, k: Kept, p: seq<seq<seq<byte>>>, torn: seq<byte>, eof: nat)
    requires RecoveredAll(r, k, p, torn, eof) && !k.last.stale
    ensures r.metas == ClipMetas(k.last.metas)
  {
    hide RecoveredTrack, MetasKept, ClipMetas;
    MetasSurvive(r.metas, k.last.metas);
  }

  lemma TrackTextsBack(r: Mux, k: Kept, p: seq<seq<seq<byte>>>, torn: seq<byte>, eof: nat, h: nat)
    requires RecoveredAll(r, k, p, torn, eof) && h < |r.byHandle|
    ensures StillThere(k, h, 0, eof) ==> r.byHandle[h].metas == ClipMetas(k.last.states[h].metas)
  {
    hide ClipMetas, RefsFrom, RefBytes, MetasKept, InfoKept;
    MetasSurvive(r.byHandle[h].metas, k.last.states[h].metas);
    assert RecoveredTrack(r.byHandle[h], k.last.states[h], k.configs[h], p[h], eof);
  }

  lemma ValuedByHandle(r: Mux, k: Kept, p: seq<seq<seq<byte>>>, torn: seq<byte>, eof: nat)
    requires r.TracksOk() && RecoveredAll(r, k, p, torn, eof) && !k.last.stale
    ensures P.ValuesRead(r) <==> AllValuedBack(k, eof)
  {
    hide Mux.TracksOk, StillThere, T.Valued, ClipMetas, RecoveredTrack, MetasKept;
    FileMetasBack(r, k, p, torn, eof);
    r.SameTracks();
    SameCounts(r, k, p, torn, eof);
    ValuedClipped(k.last.metas);
    forall h: nat | h < |r.byHandle|
      ensures r.byHandle[h].samples != [] <==> StillThere(k, h, 0, eof)
      ensures StillThere(k, h, 0, eof) ==> (T.Valued(r.byHandle[h].metas) <==> T.Valued(k.last.states[h].metas))
    {
      NotEmptyThere(r, k, p, torn, eof, h);
      TrackTextsBack(r, k, p, torn, eof, h);
      ValuedClipped(k.last.states[h].metas);
    }
    if P.ValuesRead(r) {
      forall h | 0 <= h < |k.last.states| && StillThere(k, h, 0, eof) ensures T.Valued(k.last.states[h].metas) {
        assert r.byHandle[h] in r.tracks;
      }
    }
    if AllValuedBack(k, eof) {
      forall i | 0 <= i < |r.tracks| && r.tracks[i].samples != [] ensures T.Valued(r.tracks[i].metas) {
        assert r.tracks[i] == r.byHandle[r.tracks[i].handle - 1];
      }
    }
  }

  /** What `RecordAndRecover` leaves can be played back by `PlayRecovered` when its movie box was written. */
  lemma RecoveredCanBePlayed(m: Mux, ops: seq<Op>, notes: seq<Note>, replies: seq<Reply>, crash: Crash, o: Outcome, r: Option<Mux>,
                             perfect: bool, fixed: M.Fixed, max: nat, moov: B.Box, tiled: bool)
    requires |notes| == |replies| == |ops| && forall i :: 0 <= i < |ops| ==> Sane(ops[i])
    requires Survived(m, ops, notes, replies, crash, o, r) && o.Closed? && o.result.Written?
    requires RecoveredWell(r.value, o.result, LastKept(notes), Payloads(m.byHandle), m.torn, LeftOf(m.file.content, crash), perfect, fixed, max, moov, tiled)
    ensures ClosedAs(r.value, fixed, DataBefore(LeftOf(m.file.content, crash), max), max, perfect, SyncResult.Written, moov, tiled)
    ensures AllLeftOf(r.value, SyncedContent(ops, notes, replies), ReopenedEnd(m.file.content, crash)) && r.value.timescale > 0
    ensures P.AllCarried(r.value) <==> AllCarriedBack(LastKept(notes), ReopenedEnd(m.file.content, crash))
    ensures !LastKept(notes).last.stale ==> (P.ValuesRead(r.value) <==> AllValuedBack(LastKept(notes), ReopenedEnd(m.file.content, crash)))
  {
    hide ConfigsLeftOf, SyncedContent, AllLeftOf, SomeLeftOf, ClosedAs, RecoveredAll, SomeStillThere, FurthestThere, LastKept, SomeJournalled, Sane;
    hide AllRefsReturn, AllConfigured, RefsResolve, AllDescribed, P.AllCarried, AllCarriedBack;
    ClosedFacts(r.value, fixed, DataBefore(LeftOf(m.file.content, crash), max), max, perfect, moov, tiled);
    CarriedByHandle(r.value, LastKept(notes), Payloads(m.byHandle), m.torn, ReopenedEnd(m.file.content, crash));
    if !LastKept(notes).last.stale {
      ValuedByHandle(r.value, LastKept(notes), Payloads(m.byHandle), m.torn, ReopenedEnd(m.file.content, crash));
    }
  }

  // ---------- without a crash ----------

  /** The parameter sets of every track with samples are at most 65535 bytes long. */
  predicate AllCarriedIn(c: Content)
  {
    forall h :: 0 <= h < |c.tracks| && c.tracks[h].samples != [] ==> Carried(c.tracks[h].info.kind, c.tracks[h].config)
  }

  /** The values of the file and of every track with samples can be read. */
  predicate AllValuedIn(c: Content)
  {
    T.Valued(c.metas) && forall h :: 0 <= h < |c.tracks| && c.tracks[h].samples != [] ==> T.Valued(c.tracks[h].metas)
  }

  lemma WholeTrackPlays(d: D.Track, t: Track, content: seq<byte>)
    requires P.ReadBackAs(d, t, content)
    ensures PlaysBack(d, ContentOfTrack(t), content, |content|)
  {
    hide Rebased, StepsFit;
    assert t.State().samples == t.samples && t.State().syncs == t.syncs;
    assert t.samples[..|t.samples|] == t.samples;
  }

  lemma AllPlayWhole(m: Mux, tracks: seq<D.Track>)
    requires m.TracksOk() && P.AllReadBack(m, tracks, m.file.content)
    ensures AllPlayBack(tracks, ContentOf(m), m.file.content, |m.file.content|)
  {
    hide Mux.TracksOk, Track.State, Track.Valid, P.ReadBackAs, PlaysBack, P.Place, Rows;
    m.SameTracks();
    var c, eof := ContentOf(m), |m.file.content|;
    forall h: nat | HasSome(c, h, eof) ensures exists j :: 0 <= j < |tracks| && PlaysBack(tracks[j], c.tracks[h], m.file.content, eof) {
      assert m.byHandle[h] in m.tracks;
      var i :| 0 <= i < |m.tracks| && m.tracks[i] == m.byHandle[h];
      WholeTrackPlays(tracks[P.Place(Rows(m), i)], m.byHandle[h], m.file.content);
    }
  }

  /** No sample of a recording ends after its file. */
  lemma EndsInFile(m: Mux, h: nat, i: nat)
    requires m.TracksOk() && m.DataSafe(m.file.pos) && h < |m.byHandle| && i < |m.byHandle[h].samples|
    ensures End(m.byHandle[h].samples[i]) <= |m.file.content|
  {
    hide Mux.TracksOk, SF.Growing, SF.Apart;
    assert SF.Stored(m.file.content, m.byHandle[h].samples, m.byHandle[h].payloads, m.Base() + 16, m.file.pos);
    assert SF.StoredAt(m.file.content, m.byHandle[h].samples[i], m.byHandle[h].payloads[i], m.Base() + 16, m.file.pos);
  }

  lemma CarriedIn(m: Mux)
    requires m.TracksOk()
    ensures P.AllCarried(m) <==> AllCarriedIn(ContentOf(m))
  {
    hide Mux.TracksOk, Carried;
    m.SameTracks();
    var c := ContentOf(m);
    if P.AllCarried(m) {
      forall h | 0 <= h < |c.tracks| && c.tracks[h].samples != [] ensures Carried(c.tracks[h].info.kind, c.tracks[h].config) {
        assert m.byHandle[h] in m.tracks;
      }
    }
    if AllCarriedIn(c) {
      forall i | 0 <= i < |m.tracks| && m.tracks[i].samples != [] ensures Carried(m.tracks[i].info.kind, m.tracks[i].config) {
        assert m.tracks[i] == m.byHandle[m.tracks[i].handle - 1];
        assert c.tracks[m.tracks[i].handle - 1].samples != [];
      }
    }
  }

  lemma ValuedIn(m: Mux)
    requires m.TracksOk()
    ensures P.ValuesRead(m) <==> AllValuedIn(ContentOf(m))
  {
    hide Mux.TracksOk, T.Valued;
    m.SameTracks();
    var c := ContentOf(m);
    if P.ValuesRead(m) {
      forall h | 0 <= h < |c.tracks| && c.tracks[h].samples != [] ensures T.Valued(c.tracks[h].metas) {
        assert m.byHandle[h] in m.tracks;
      }
    }
    if AllValuedIn(c) {
      forall i | 0 <= i < |m.tracks| && m.tracks[i].samples != [] ensures T.Valued(m.tracks[i].metas) {
        assert m.tracks[i] == m.byHandle[m.tracks[i].handle - 1];
        assert c.tracks[m.tracks[i].handle - 1].samples != [];
      }
    }
  }

  lemma CountedTrack(m: Mux, h: nat)
    requires m.TracksOk() && m.DataSafe(m.file.pos) && h < |m.byHandle|
    ensures var s := ContentOf(m).tracks[h].samples;
            P.TimesCounted(m.byHandle[h].State()) <==>
              !(|s| > 1 && End(s[1]) <= |m.file.content|) || Step32(s[0].dts, s[1].dts) != U32_MAX
  {
    hide Mux.TracksOk, Mux.DataSafe, Step32;
    StateSamples(m.byHandle[h]);
    if |m.byHandle[h].samples| > 1 { EndsInFile(m, h, 1); }
  }

  lemma CountedIn(m: Mux)
    requires m.TracksOk() && m.DataSafe(m.file.pos)
    ensures P.AllCounted(m) <==> StepsCounted(ContentOf(m), |m.file.content|)
  {
    hide Mux.TracksOk, Mux.DataSafe, Step32, Track.State, P.TimesCounted;
    m.SameTracks();
    var c, eof := ContentOf(m), |m.file.content|;
    if P.AllCounted(m) {
      forall h | 0 <= h < |c.tracks| && |c.tracks[h].samples| > 1 && End(c.tracks[h].samples[1]) <= eof
        ensures Step32(c.tracks[h].samples[0].dts, c.tracks[h].samples[1].dts) != U32_MAX
      {
        assert m.byHandle[h] in m.tracks;
        CountedTrack(m, h);
      }
    }
    if StepsCounted(c, eof) {
      forall i | 0 <= i < |m.tracks| && m.tracks[i].samples != [] ensures P.TimesCounted(m.tracks[i].State()) {
        assert m.tracks[i] == m.byHandle[m.tracks[i].handle - 1];
        CountedTrack(m, m.tracks[i].handle - 1);
      }
    }
  }

  /** What playback depends on is known from what the operations mean. */
  lemma ConditionsIn(m: Mux)
    requires m.Valid()
    ensures var c := ContentOf(m);
            && m.TracksOk() && (P.AllCarried(m) <==> AllCarriedIn(c)) && (P.ValuesRead(m) <==> AllValuedIn(c))
            && (P.AllCounted(m) <==> StepsCounted(c, |m.file.content|))
  {
    hide Mux.TracksOk, Mux.MetasOk, Mux.DataSafe, Mux.JournalOk, Mux.LogOk, P.AllCarried, P.ValuesRead, P.AllCounted, AllCarriedIn, AllValuedIn, StepsCounted;
    CarriedIn(m);
    ValuedIn(m);
    CountedIn(m);
  }

  /** A recording that was closed is read back by the demuxer, on conditions that are known from its content. */
  method PlayClosed(m: Mux, ghost fixed: M.Fixed, ghost data: seq<byte>, ghost moov: B.Box, ghost ts: seq<Track>, ghost states: seq<TrackState>)
    returns (tracks: seq<D.Track>, descs: seq<Desc>, extras: P.Extras, ok: bool)
    requires m.Valid() && WithinLimits(m) && RefreshedFrom(m, ts, states) && P.PlainKeys(m) && Finished(m, fixed, data, moov, true)
    ensures ok && P.AllToldBack(m, descs) <==>
              && m.timescale > 0 && AllCarriedIn(ContentOf(m)) && StepsCounted(ContentOf(m), |m.file.content|) && AllValuedIn(ContentOf(m))
              && P.ChaptersThere(Rows(m), m.file.content)
    ensures ok ==> AllPlayBack(tracks, ContentOf(m), m.file.content, |m.file.content|) && P.ExtrasBack(m, tracks, extras)
  {
    hide Mux.Valid, WithinLimits, RefreshedFrom, Finished, P.PlainKeys, P.AllCarried, P.ValuesRead, P.AllCounted, P.AllReadBack;
    hide P.AllToldBack, P.ExtrasBack, P.ChaptersThere, AllCarriedIn, StepsCounted, AllValuedIn, AllPlayBack, Rows, TracksOf, D.Track.Valid, Mux.TracksOk;
    ConditionsIn(m);
    tracks, descs, extras, ok := P.ReadBack(m, fixed, data, moov, ts, states);
    if ok { AllPlayWhole(m, tracks); }
  }

  /**
     Closing a recording and opening the file again. When the movie box was written with
     the gap after it filled, the demuxer refuses the file exactly when the movie has no
     timescale, the first step of some track is 2^32-1 ticks, a value of the metadata
     cannot be read, or the text of a chapter is not in the file; parameter sets of more
     than 65535 bytes are not read back whole. Otherwise it has every sample of every track.
  */
  method CloseAndPlay(m: Mux, fixed: M.Fixed)
    returns (r: SyncResult, played: bool, tracks: seq<D.Track>, descs: seq<Desc>, extras: P.Extras, ok: bool, ghost moov: B.Box, tiled: bool)
    requires m.Valid() && WithinLimits(m)
    modifies m`ended, m`tracks, m`maxReached, m.file
    modifies m.tracks`id, m.tracks`times, m.tracks`duration, m.tracks`durationMoov, m.tracks`timed
    ensures m.Valid() && ContentOf(m) == old(ContentOf(m)) && (r.Written? || r.Unwritten? || r.Failed?)
    ensures old(m.file.grants) == [] ==> AsIntended(m, fixed, |old(m.file.content)|, true, r, moov, tiled)
    ensures played <==> r.Written? && tiled && P.PlainKeys(m)
    ensures played ==>
              (ok && P.AllToldBack(m, descs) <==>
                 && m.timescale > 0 && AllCarriedIn(ContentOf(m)) && StepsCounted(ContentOf(m), |m.file.content|) && AllValuedIn(ContentOf(m))
                 && P.ChaptersThere(Rows(m), m.file.content))
    ensures played && ok ==>
              AllPlayBack(tracks, ContentOf(m), m.file.content, |m.file.content|) && P.ExtrasBack(m, tracks, extras)
  {
    hide Mux.Valid, WithinLimits, RefreshedFrom, Finished, AsIntended, Mux.States, P.PlainKeys, P.AllCarried, P.ValuesRead, P.AllCounted, P.AllReadBack;
    hide P.AllToldBack, P.ExtrasBack, P.ChaptersThere, AllCarriedIn, StepsCounted, AllValuedIn, AllPlayBack, Rows, NoMovieBox, TracksOf, D.Track.Valid;
    ghost var ts, states := m.tracks, Mux.States(m.byHandle);
    played, tracks, descs, extras, ok := false, [], [], P.NO_EXTRAS, false;
    r, moov, tiled := Close(m, fixed);
    NoTrackChanged(m);
    if !r.Written? || !tiled { return; }
    played := P.PlainKeys(m);
    if !played { return; }
    StillWithinLimits(m);
    tracks, descs, extras, ok := PlayClosed(m, fixed, old(m.file.content)[m.Base() + 16..], moov, ts, states);
  }

  /** A recording that can be closed. */
  lemma RunningClosable(m: Mux, n: nat, k: Kept)
    requires Running(m, n, k) && n <= B.MAX_ENTRY_COUNT
    ensures m.Valid() && WithinLimits(m) && forall i :: 0 <= i < |m.tracks| ==> m.tracks[i] in m.byHandle
  {
    hide Mux.Valid, LogIs;
    TracksListed(m);
  }

  /**
     A recording from its start to its playback: whatever the operations, and however
     the devices failed on the way, a file whose movie box was written and can be found
     plays back what the operations mean, under exactly the conditions above on what
     they mean.
  */
  method RecordAndPlay(timescale: u32, megabytes: u32, path: seq<byte>, file: DataFile, journal: TablesFile?, ops: seq<Op>, fixed: M.Fixed)
    returns (m: Option<Mux>, r: SyncResult, played: bool, tracks: seq<D.Track>, descs: seq<Desc>, extras: P.Extras, ok: bool,
             ghost done: nat, ghost notes: seq<Note>, ghost replies: seq<Reply>, ghost size: nat, ghost moov: B.Box, tiled: bool)
    requires megabytes < 4096 && file.Valid() && file.pos == 0
    requires journal != null ==> journal.Valid() && journal.pos == 0 && journal.safe == []
    requires Count(ops) <= B.MAX_ENTRY_COUNT && forall i :: 0 <= i < |ops| ==> Sane(ops[i])
    modifies file, journal
    ensures m.Some? ==> done <= |ops| && |notes| == |replies| == done && (done < |ops| ==> 0 < done && ops[done - 1].SyncNow?)
    ensures m.Some? ==> m.value.timescale == timescale && m.value.file == file
    ensures m.Some? ==> ContentOf(m.value) == Final(ops[..done], replies) && Followed(ops[..done], notes, replies, old(file.grants) == [])
    ensures m.Some? && old(file.grants) == [] ==> AsIntended(m.value, fixed, size, true, r, moov, tiled)
    ensures played <==> m.Some? && r.Written? && tiled && P.PlainKeys(m.value)
    ensures played ==>
              var c := Final(ops[..done], replies);
              (ok && P.AllToldBack(m.value, descs) <==>
                 && timescale > 0 && AllCarriedIn(c) && StepsCounted(c, |file.content|) && AllValuedIn(c)
                 && P.ChaptersThere(Rows(m.value), file.content))
    ensures played && ok ==>
              AllPlayBack(tracks, Final(ops[..done], replies), file.content, |file.content|) && P.ExtrasBack(m.value, tracks, extras)
  {
    hide Running, Final, Followed, NotesOf, Sane, Excused, LastKept, AllWithin, AllModest, SomeJournalled, Count, AllCarriedIn, StepsCounted, AllValuedIn;
    hide P.AllToldBack, P.ExtrasBack, P.ChaptersThere, AllPlayBack, Rows, AsIntended, P.PlainKeys, TracksOf, WithinLimits, Mux.Valid;
    r, played, tracks, descs, extras, ok, size, moov, tiled := Failed, false, [], [], P.NO_EXTRAS, false, 0, B.Opaque(0, []), false;
    m, done, notes, replies := Recording.Record(timescale, megabytes, path, file, journal, ops);
    if m.None? { return; }
    CountMonotone(ops, done);
    RunningClosable(m.value, Count(ops[..done]), LastKept(notes));
    size := |file.content|;
    r, played, tracks, descs, extras, ok, moov, tiled := CloseAndPlay(m.value, fixed);
  }
}
