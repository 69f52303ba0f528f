/**
 The movie box the muxer builds from its tracks and its metadata, and what a walk over
 it tells the demuxer: the tables of every track that has samples, in the order of the
 tracks, and the keys and values that were set.
 */
module Movie {
  import opened Bytes
  import opened Wrappers
  import opened TimeTable
  import opened ChunkMap
  import opened BoxTree
  import opened BoxWalk
  import opened BoxLemmas
  import opened ConfigBytes
  import opened HeaderBoxes
  import opened MovieTexts
  import opened TextReader
  import J = JournalFormat
  import M = Metadata
  import R = JournalReplay

  /** A track as the muxer writes it: its tables and what else its boxes say. */
  datatype TrackRow = TrackRow(state: R.TrackState, id: u32, duration: u64, durationMoov: u64, refIds: seq<u32>)

  /** The fixed part of a video configuration. */
  type Info = s: seq<byte> | |s| == HVCC_INFO witness Zeros(HVCC_INFO)

  /** What the movie box holds that is neither in its tracks nor in its metadata; the fixed parts by track. */
  datatype Fixed = Fixed(created: u64, modified: u64, infos: u32 -> Info)

  function MediaHeader(kind: J.TrackType): u32
  {
    match kind
    case Video => VMHD
    case Audio => SMHD
    case Timed => NMHD
    case Chapters => GMHD
  }

  /** Only video tracks have a size. */
  function SizeOf(s: R.TrackState): (u32, u32)
  {
    if s.info.kind.Video? && (s.config.Avc? || s.config.Hevc?) then (s.config.width, s.config.height) else (0, 0)
  }

  function SizesOf(samples: seq<J.Sample>): (s: seq<u32>)
    ensures |s| == |samples| && forall i :: 0 <= i < |s| ==> s[i] == samples[i].size
  {
    seq(|samples|, i requires 0 <= i < |samples| => samples[i].size)
  }

  /** An empty table takes no bytes, so it is left out of the tree. */
  function SyncBoxes(syncs: seq<u32>): seq<Box>
  {
    if syncs == [] then [] else [Table(Stss(syncs))]
  }

  function TableBoxes(s: R.TrackState): seq<Box>
  {
    [Table(Stts(s.times))] + (SyncBoxes(s.syncs) +
      ([Table(Stsc(s.chunkMap))] + ([Table(Stsz(SizesOf(s.samples)))] + [Table(Stco(s.chunks))])))
  }

  function StsdOf(r: TrackRow, info: Info): HeaderBox
  {
    Stsd(r.state.info.kind, r.state.config, r.id, info)
  }

  function Stbl(r: TrackRow, info: Info): Box
  {
    Container(STBL, [Header(StsdOf(r, info))] + TableBoxes(r.state))
  }

  function Dinf(): Box
  {
    Container(DINF, [Opaque(DREF, WordBytes(DREF_WORDS))])
  }

  function MediaBox(kind: J.TrackType): Box
  {
    Opaque(MediaHeader(kind), MediaContent(kind))
  }

  function Minf(r: TrackRow, info: Info): Box
  {
    Container(MINF, [MediaBox(r.state.info.kind)] + ([Dinf()] + [Stbl(r, info)]))
  }

  function MdhdOf(r: TrackRow): HeaderBox
  {
    Mdhd(r.state.info.created, r.state.info.modified, r.state.info.timescale, r.duration)
  }

  function HdlrOf(r: TrackRow): HeaderBox
  {
    Hdlr(r.state.info.kind, r.state.info.name)
  }

  function Mdia(r: TrackRow, info: Info): Box
  {
    Container(MDIA, [Header(MdhdOf(r))] + ([Header(HdlrOf(r))] + [Minf(r, info)]))
  }

  /** Metadata tracks describe others; other tracks have chapters. */
  function TrefOf(r: TrackRow): HeaderBox
  {
    Tref(if r.state.info.kind.Timed? then CDSC else CHAP, r.refIds)
  }

  function RefBoxes(r: TrackRow): seq<Box>
  {
    if r.refIds == [] then [] else [Header(TrefOf(r))]
  }

  function TkhdOf(r: TrackRow): HeaderBox
  {
    var i := r.state.info;
    Tkhd(i.flags, i.created, i.modified, r.id, r.durationMoov, i.kind.Audio?, SizeOf(r.state).0, SizeOf(r.state).1)
  }

  function TrakBox(r: TrackRow, info: Info): Box
  {
    Container(TRAK, [Header(TkhdOf(r))] + (RefBoxes(r) + ([Mdia(r, info)] + MetaBoxes(r.state.metas, NO_COVER))))
  }

  /** Empty tracks are skipped. */
  function Traks(rows: seq<TrackRow>, infos: u32 -> Info): seq<Box>
  {
    if rows == [] then []
    else (if rows[0].state.samples == [] then [] else [TrakBox(rows[0], infos(rows[0].state.handle))]) + Traks(rows[1..], infos)
  }

  /** The longest duration, compared in 64 bits and kept in 32. */
  function MovieTicks(rows: seq<TrackRow>, ticks: u32): u32
  {
    if rows == [] then ticks
    else MovieTicks(rows[1..], if rows[0].durationMoov > ticks then rows[0].durationMoov % TWO32 else ticks)
  }

  /** As long as the longest of the tracks. */
  predicate LastsAsLongest(rows: seq<TrackRow>, ticks: int)
  {
    && (forall i :: 0 <= i < |rows| ==> rows[i].durationMoov <= ticks)
    && (ticks == 0 || exists i :: 0 <= i < |rows| && rows[i].durationMoov == ticks)
  }

  predicate DurationsFit(rows: seq<TrackRow>)
  {
    forall i :: 0 <= i < |rows| ==> rows[i].durationMoov < TWO32
  }

  /** The movie lasts as long as the longest of its tracks, if their durations have 32 bits. */
  lemma MovieLasts(rows: seq<TrackRow>)
    requires DurationsFit(rows)
    ensures LastsAsLongest(rows, MovieTicks(rows, 0))
  {
    TicksGrow(rows, 0);
  }

  lemma {:induction false} TicksGrow(rows: seq<TrackRow>, ticks: u32)
    requires DurationsFit(rows)
    ensures var r := MovieTicks(rows, ticks);
            && ticks <= r && (forall i :: 0 <= i < |rows| ==> rows[i].durationMoov <= r)
            && (r == ticks || exists i :: 0 <= i < |rows| && rows[i].durationMoov == r)
  {
    if rows != [] {
      var rest := rows[1..];
      var next: u32 := if rows[0].durationMoov > ticks then rows[0].durationMoov else ticks;
      assert forall i :: 0 <= i < |rest| ==> rest[i] == rows[i + 1];
      TicksGrow(rest, next);
      assert forall i :: 0 < i < |rows| ==> rows[i] == rest[i - 1];
    }
  }

  function MvhdOf(rows: seq<TrackRow>, timescale: u32, fixed: Fixed): HeaderBox
  {
    Mvhd(fixed.created, fixed.modified, timescale, MovieTicks(rows, 0), |rows|)
  }

  function Moov(rows: seq<TrackRow>, timescale: u32, ms: seq<M.Meta>, c: CoverArt, fixed: Fixed): Box
  {
    Container(MOOV, [Header(MvhdOf(rows, timescale, fixed))] + (Traks(rows, fixed.infos) + MetaBoxes(ms, c)))
  }

  // ---------- what the tree tells ----------

  /** With one track more, being read. */
  function With(v: Found, t: TrackTables, d: Option<Desc>): Found
  {
    v.(tracks := v.tracks + [t], told := v.told + [d])
  }

  /** In the track opened last. */
  predicate InLast(s: Spot, v: Found)
  {
    s.cur == Some(|v.tracks|)
  }

  lemma SetLast(v: Found, t: TrackTables, d: Option<Desc>, u: TrackTables)
    requires Matched(v)
    ensures With(v, t, d).tracks[|v.tracks|] == t && SetTrack(With(v, t, d), |v.tracks|, u) == With(v, u, d)
    ensures BoxWalk.Open(With(v, t, d), Some(|v.tracks|))
  {
    assert (v.tracks + [t])[|v.tracks| := u] == v.tracks + [u];
  }

  /** A table goes to the track opened last. */
  lemma VisitTable(v: Found, tt: TrackTables, d: Option<Desc>, t: Table, s: Spot)
    requires Matched(v) && !Defined(tt, Kind(t)) && InLast(s, v)
    ensures Visit(Table(t), With(v, tt, d), s) == Some(With(v, Store(tt, t), d))
  {
    hide Kind, Store, Defined;
    SetLast(v, tt, d, Store(tt, t));
  }

  /** The boxes of a track that are not tables. */
  function HeadOf(r: TrackRow): TrackTables
  {
    TrackTables(r.id, r.state.info.timescale, r.duration, HandlerOf(r.state.info.kind),
                if r.refIds == [] then 0 else TrefOf(r).reference,
                if r.refIds == [] then [] else TrefRead(TrefOf(r).reference, r.refIds), NO_TEXTS, None, None, None, None, None)
  }

  /** The head and the tables: without sync entries, there is no sync table. */
  function Tabled(r: TrackRow): TrackTables
  {
    var s := r.state;
    HeadOf(r).(times := Some(s.times), syncs := if s.syncs == [] then None else Some(s.syncs), sizes := Some(SizesOf(s.samples)),
               chunks := Some(s.chunkMap), offsets := Some(s.chunks))
  }

  /** What the demuxer knows of a track. */
  function TablesOf(r: TrackRow): TrackTables
  {
    Tabled(r).(texts := TextsOf(r.state.metas))
  }

  /** The description of a track, if it can be read back whole. */
  function ToldOf(s: R.TrackState): Option<Desc>
  {
    if Carried(s.info.kind, s.config) then Some(Told(s.info.kind, s.config)) else None
  }

  lemma KindOfTable(t: Table)
    ensures Kind(t) == match t
                       case Stts(_) => STTS
                       case Stss(_) => STSS
                       case Stsz(_) => STSZ
                       case Stsc(_) => STSC
                       case Stco(es) => if Wide(es) then CO64 else STCO
  {
  }

  lemma VisitTables(r: TrackRow, v: Found, d: Option<Desc>, at: Spot)
    requires Matched(v) && InLast(at, v)
    ensures VisitAll(TableBoxes(r.state), With(v, HeadOf(r), d), at) == Some(With(v, Tabled(r), d))
  {
    hide Visit, VisitAll, Kind, HeadOf, With, InLast;
    var s := r.state;
    var a := Stts(s.times);
    var c := Stsc(s.chunkMap);
    var e := Stsz(SizesOf(s.samples));
    var f := Stco(s.chunks);
    KindOfTable(a);
    KindOfTable(c);
    KindOfTable(e);
    KindOfTable(f);
    NoTablesYet(r);
    var rest := [Table(c)] + ([Table(e)] + [Table(f)]);
    var t0 := HeadOf(r);
    var t1 := Store(t0, a);
    VisitTable(v, t0, d, a, at);
    VisitCons(Table(a), SyncBoxes(s.syncs) + rest, With(v, t0, d), at);
    var t2 := if s.syncs == [] then t1 else Store(t1, Stss(s.syncs));
    if s.syncs == [] {
      assert SyncBoxes(s.syncs) + rest == rest;
    } else {
      KindOfTable(Stss(s.syncs));
      VisitTable(v, t1, d, Stss(s.syncs), at);
      VisitCons(Table(Stss(s.syncs)), rest, With(v, t1, d), at);
    }
    VisitTable(v, t2, d, c, at);
    VisitCons(Table(c), [Table(e)] + [Table(f)], With(v, t2, d), at);
    var t3 := Store(t2, c);
    VisitTable(v, t3, d, e, at);
    VisitCons(Table(e), [Table(f)], With(v, t3, d), at);
    var t4 := Store(t3, e);
    VisitTable(v, t4, d, f, at);
    VisitCons(Table(f), [], With(v, t4, d), at);
  }

  lemma NoTablesYet(r: TrackRow)
    ensures var t := HeadOf(r); t.times.None? && t.syncs.None? && t.sizes.None? && t.chunks.None? && t.offsets.None?
  {
  }

  /** A header box of the open track. */
  lemma VisitLeaf(h: HeaderBox, v: Found, t: TrackTables, d: Option<Desc>, u: TrackTables, s: Spot)
    requires Matched(v) && InLast(s, v)
    requires match h
             case Tkhd(_, _, _, id, _, _, _, _) => v.timescale != 0 && u == t.(id := id)
             case Tref(reference, ids) => ids != [] && u == t.(refKind := reference, refs := TrefRead(reference, ids))
             case Mdhd(_, _, timescale, duration) => timescale != 0 && u == t.(timescale := timescale, duration := duration)
             case Hdlr(kind, _) => u == t.(handler := HandlerOf(kind))
             case _ => false
    ensures Visit(Header(h), With(v, t, d), s) == Some(With(v, u, d))
  {
    hide TrefRead;
    SetLast(v, t, d, u);
  }

  /** The sample description of the open track, whose handler is known. */
  lemma VisitStsd(r: TrackRow, info: Info, v: Found, t: TrackTables, s: Spot)
    requires Matched(v) && t.handler == HandlerOf(r.state.info.kind) && InLast(s, v)
    ensures Visit(Header(StsdOf(r, info)), With(v, t, Some(NO_DESC)), s) == Some(With(v, t, ToldOf(r.state)))
  {
    hide Told, Carried;
    var w := With(v, t, Some(NO_DESC));
    assert w.told[|v.tracks|] == Some(NO_DESC);
    assert w.told[|v.tracks| := ToldOf(r.state)] == v.told + [ToldOf(r.state)];
  }

  lemma VisitStbl(r: TrackRow, info: Info, v: Found, s: Spot)
    requires Matched(v) && InLast(s, v)
    ensures Visit(Stbl(r, info), With(v, HeadOf(r), Some(NO_DESC)), s) == Some(With(v, Tabled(r), ToldOf(r.state)))
  {
    hide Visit, VisitAll, TableBoxes, Tabled, ToldOf, With;
    var inside, w := Inner(s, STBL), With(v, HeadOf(r), Some(NO_DESC));
    VisitContainer(STBL, Stbl(r, info).children, w, s);
    VisitStsd(r, info, v, HeadOf(r), inside);
    VisitCons(Header(StsdOf(r, info)), TableBoxes(r.state), w, inside);
    VisitTables(r, v, ToldOf(r.state), inside);
  }

  lemma VisitMinf(r: TrackRow, info: Info, v: Found, s: Spot)
    requires Matched(v) && InLast(s, v)
    ensures Visit(Minf(r, info), With(v, HeadOf(r), Some(NO_DESC)), s) == Some(With(v, Tabled(r), ToldOf(r.state)))
  {
    hide Visit, VisitAll, Stbl, Tabled, HeadOf, ToldOf, With, WordBytes, MediaContent;
    var inside, w := Inner(s, MINF), With(v, HeadOf(r), Some(NO_DESC));
    VisitContainer(MINF, Minf(r, info).children, w, s);
    VisitOpaque(MediaHeader(r.state.info.kind), MediaContent(r.state.info.kind), [Dinf()] + [Stbl(r, info)], w, inside);
    VisitContainer(DINF, Dinf().children, w, inside);
    VisitInert([Opaque(DREF, WordBytes(DREF_WORDS))], w, Inner(inside, DINF));
    VisitCons(Dinf(), [Stbl(r, info)], w, inside);
    VisitStbl(r, info, v, inside);
    VisitCons(Stbl(r, info), [], w, inside);
  }

  /** A track whose headers up to the references have been read. */
  function Begun(r: TrackRow): TrackTables
  {
    NO_TABLES.(id := r.id, refKind := HeadOf(r).refKind, refs := HeadOf(r).refs)
  }

  lemma VisitMdia(r: TrackRow, info: Info, v: Found, s: Spot)
    requires Matched(v) && InLast(s, v) && r.state.info.timescale > 0
    ensures Visit(Mdia(r, info), With(v, Begun(r), Some(NO_DESC)), s) == Some(With(v, Tabled(r), ToldOf(r.state)))
  {
    hide Visit, VisitAll, Minf, Tabled, ToldOf, With, TrefRead;
    var inside, none := Inner(s, MDIA), Some(NO_DESC);
    var t0, t2 := Begun(r), HeadOf(r);
    var t1 := t0.(timescale := r.state.info.timescale, duration := r.duration);
    VisitContainer(MDIA, Mdia(r, info).children, With(v, t0, none), s);
    VisitLeaf(MdhdOf(r), v, t0, none, t1, inside);
    VisitCons(Header(MdhdOf(r)), [Header(HdlrOf(r))] + [Minf(r, info)], With(v, t0, none), inside);
    VisitLeaf(HdlrOf(r), v, t1, none, t2, inside);
    VisitCons(Header(HdlrOf(r)), [Minf(r, info)], With(v, t1, none), inside);
    VisitMinf(r, info, v, inside);
    VisitCons(Minf(r, info), [], With(v, t2, none), inside);
  }

  /** What the demuxer knows after a track more, whose tags and location are taken for those of the file. */
  function AfterTrak(r: TrackRow, v: Found): Found
  {
    With(WithNotes(v, Noted(r.state.metas, NO_COVER, v.notes)), TablesOf(r), ToldOf(r.state))
  }

  /** The metadata of a track, after the rest of it. */
  lemma VisitTrackTexts(r: TrackRow, v: Found, s: Spot)
    requires Matched(v) && InLast(s, v) && s.parent == TRAK && PlainMetas(r.state.metas)
    ensures VisitAll(MetaBoxes(r.state.metas, NO_COVER), With(v, Tabled(r), ToldOf(r.state)), s) ==
            if Valued(r.state.metas) then Some(AfterTrak(r, v)) else None
  {
    hide VisitAll, MetaBoxes, Tabled, ToldOf, PlainMetas, Valued, Noted, TextsOf;
    var w := With(v, Tabled(r), ToldOf(r.state));
    TabledTexts(r);
    SetLast(v, Tabled(r), ToldOf(r.state), TablesOf(r));
    VisitMetaBoxes(r.state.metas, NO_COVER, w, s);
  }

  lemma TabledTexts(r: TrackRow)
    ensures Tabled(r).texts == NO_TEXTS
  {
  }

  lemma VisitTrak(r: TrackRow, info: Info, v: Found, s: Spot)
    requires Matched(v) && r.state.info.timescale > 0 && v.timescale > 0 && PlainMetas(r.state.metas)
    ensures Visit(TrakBox(r, info), v, s) == if Valued(r.state.metas) then Some(AfterTrak(r, v)) else None
  {
    hide VisitAll, Mdia, Tabled, WellTyped, ToldOf, TrefRead, MetaBoxes, AfterTrak, PlainMetas, Valued;
    var open, none := Spot(TRAK, s.parent, Some(|v.tracks|)), Some(NO_DESC);
    var t0 := NO_TABLES;
    var t1 := t0.(id := r.id);
    assert With(v, t0, none) == NewTrack(v);
    var more := MetaBoxes(r.state.metas, NO_COVER);
    var rest := [Mdia(r, info)] + more;
    VisitLeaf(TkhdOf(r), v, t0, none, t1, open);
    VisitCons(Header(TkhdOf(r)), RefBoxes(r) + rest, With(v, t0, none), open);
    VisitRefs(r, v, rest, open);
    VisitMdia(r, info, v, open);
    VisitCons(Mdia(r, info), more, With(v, Begun(r), none), open);
    VisitTrackTexts(r, v, open);
  }

  lemma VisitRefs(r: TrackRow, v: Found, rest: seq<Box>, s: Spot)
    requires Matched(v) && InLast(s, v)
    ensures VisitAll(RefBoxes(r) + rest, With(v, NO_TABLES.(id := r.id), Some(NO_DESC)), s) ==
            VisitAll(rest, With(v, Begun(r), Some(NO_DESC)), s)
  {
    hide VisitAll, Visit, TrefRead, With;
    var t1, none := NO_TABLES.(id := r.id), Some(NO_DESC);
    if r.refIds == [] {
      assert RefBoxes(r) + rest == rest;
    } else {
      VisitLeaf(TrefOf(r), v, t1, none, Begun(r), s);
      VisitCons(Header(TrefOf(r)), rest, With(v, t1, none), s);
    }
  }

  /** The tables of the tracks with samples. */
  function AllTables(rows: seq<TrackRow>): seq<TrackTables>
  {
    if rows == [] then [] else (if rows[0].state.samples == [] then [] else [TablesOf(rows[0])]) + AllTables(rows[1..])
  }

  /** The descriptions of the tracks with samples. */
  function AllTold(rows: seq<TrackRow>): seq<Option<Desc>>
  {
    if rows == [] then [] else (if rows[0].state.samples == [] then [] else [ToldOf(rows[0].state)]) + AllTold(rows[1..])
  }

  /** What the tracks with samples leave of the tags and the location: those of the last of them that has any. */
  function TrackNotes(rows: seq<TrackRow>, n: Notes): Notes
  {
    if rows == [] then n
    else TrackNotes(rows[1..], if rows[0].state.samples == [] then n else Noted(rows[0].state.metas, NO_COVER, n))
  }

  /** The timescale of a track is never 0. */
  predicate Timescaled(rows: seq<TrackRow>)
  {
    forall i :: 0 <= i < |rows| ==> rows[i].state.info.timescale > 0
  }

  /** The metadata of every track with samples has tags that mean nothing else. */
  predicate AllPlain(rows: seq<TrackRow>)
  {
    forall i :: 0 <= i < |rows| && rows[i].state.samples != [] ==> PlainMetas(rows[i].state.metas)
  }

  /** The metadata of every track with samples can be read. */
  predicate AllValued(rows: seq<TrackRow>)
  {
    forall i :: 0 <= i < |rows| && rows[i].state.samples != [] ==> Valued(rows[i].state.metas)
  }

  lemma AllNext(rows: seq<TrackRow>)
    requires rows != []
    ensures AllValued(rows) <==> (rows[0].state.samples == [] || Valued(rows[0].state.metas)) && AllValued(rows[1..])
    ensures AllPlain(rows) ==> AllPlain(rows[1..])
    ensures Timescaled(rows) ==> Timescaled(rows[1..])
  {
    hide Valued, PlainMetas;
    assert forall i :: 0 < i < |rows| ==> rows[i] == rows[1..][i - 1];
    assert forall i :: 0 <= i < |rows[1..]| ==> rows[1..][i] == rows[i + 1];
  }

  function AfterTraks(rows: seq<TrackRow>, v: Found): Found
  {
    v.(tracks := v.tracks + AllTables(rows), told := v.told + AllTold(rows), notes := TrackNotes(rows, v.notes))
  }

  lemma AfterNext(rows: seq<TrackRow>, v: Found)
    ensures AfterTraks([], v) == v
    ensures rows != [] ==>
              AfterTraks(rows, v) == AfterTraks(rows[1..], if rows[0].state.samples == [] then v else AfterTrak(rows[0], v))
  {
    hide TablesOf, ToldOf, Noted;
    if rows != [] && rows[0].state.samples != [] {
      var w := AfterTrak(rows[0], v);
      assert w.tracks + AllTables(rows[1..]) == v.tracks + AllTables(rows);
      assert w.told + AllTold(rows[1..]) == v.told + AllTold(rows);
    }
  }

  lemma {:induction false} VisitTraks(rows: seq<TrackRow>, infos: u32 -> Info, v: Found, s: Spot)
    requires Timescaled(rows) && AllPlain(rows) && Matched(v) && v.timescale > 0
    ensures VisitAll(Traks(rows, infos), v, s) == if AllValued(rows) then Some(AfterTraks(rows, v)) else None
  {
    hide Visit, VisitAll, TrakBox, TablesOf, ToldOf, AfterTraks, AllTables, AllTold, AllValued, Valued, PlainMetas, Noted;
    AfterNext(rows, v);
    if rows == [] {
      VisitNone(v, s);
      NoRowsValued();
    } else {
      AllNext(rows);
      if rows[0].state.samples == [] {
        VisitTraks(rows[1..], infos, v, s);
        assert [] + Traks(rows[1..], infos) == Traks(rows[1..], infos);
      } else {
        var info, w := infos(rows[0].state.handle), AfterTrak(rows[0], v);
        VisitTrak(rows[0], info, v, s);
        VisitCons(TrakBox(rows[0], info), Traks(rows[1..], infos), v, s);
        if Valued(rows[0].state.metas) { VisitTraks(rows[1..], infos, w, s); }
      }
    }
  }

  lemma NoRowsValued()
    ensures AllValued([])
  {
  }

  /** The metadata of the file, with tags and a location of a track where the file has none. */
  function MovieNotes(rows: seq<TrackRow>, ms: seq<M.Meta>, c: CoverArt): Notes
  {
    Noted(ms, c, TrackNotes(rows, NO_NOTES).(texts := TextsOf(ms)))
  }

  /** What a walk over the movie box finds: the tables and the description of every track with samples, and the metadata. */
  function MovieFound(rows: seq<TrackRow>, timescale: u32, ms: seq<M.Meta>, c: CoverArt): Found
  {
    Found(AllTables(rows), AllTold(rows), timescale, MovieTicks(rows, 0), MovieNotes(rows, ms, c))
  }

  /** What the movie box tells the demuxer: nothing without a timescale, or if a value cannot be read. */
  function MovieTells(rows: seq<TrackRow>, timescale: u32, ms: seq<M.Meta>, c: CoverArt): Option<Found>
  {
    if timescale > 0 && AllValued(rows) && Valued(ms) then Some(MovieFound(rows, timescale, ms, c)) else None
  }

  lemma {:induction false} TrackNotesTexts(rows: seq<TrackRow>, n: Notes)
    ensures TrackNotes(rows, n).texts == n.texts
  {
    hide Noted;
    if rows != [] {
      NotedTexts(rows[0].state.metas, NO_COVER, n);
      TrackNotesTexts(rows[1..], if rows[0].state.samples == [] then n else Noted(rows[0].state.metas, NO_COVER, n));
    }
  }

  /** The demuxer refuses a movie without a timescale or with an empty value; from any other it learns its tracks and its metadata. */
  lemma VisitMoov(rows: seq<TrackRow>, timescale: u32, ms: seq<M.Meta>, c: CoverArt, fixed: Fixed)
    requires Timescaled(rows) && AllPlain(rows) && PlainMetas(ms)
    ensures Visit(Moov(rows, timescale, ms, c, fixed), NOTHING_FOUND, TOP) == MovieTells(rows, timescale, ms, c)
    ensures var v := MovieTells(rows, timescale, ms, c);
            v.Some? ==> v.value.timescale == timescale && (DurationsFit(rows) ==> LastsAsLongest(rows, v.value.duration))
  {
    hide MovieTicks, LastsAsLongest, DurationsFit;
    if DurationsFit(rows) { MovieLasts(rows); }
    hide VisitAll, Traks, MetaBoxes, PlainMetas, Valued, AllValued, AllTables, AllTold, TextsOf, Noted, Timescaled, AllPlain;
    var s, rest := Inner(TOP, MOOV), Traks(rows, fixed.infos) + MetaBoxes(ms, c);
    VisitCons(Header(MvhdOf(rows, timescale, fixed)), rest, NOTHING_FOUND, s);
    if timescale > 0 {
      var v := Found([], [], timescale, MovieTicks(rows, 0), NO_NOTES);
      VisitTraks(rows, fixed.infos, v, s);
      VisitAllAppend(Traks(rows, fixed.infos), MetaBoxes(ms, c), v, s);
      assert [] + AllTables(rows) == AllTables(rows) && [] + AllTold(rows) == AllTold(rows);
      TrackNotesTexts(rows, NO_NOTES);
      VisitMetaBoxes(ms, c, AfterTraks(rows, v), s);
    }
  }

  // ---------- the movie box can be written and read ----------

  /** No table is longer than a 32-bit box size can say, and those that must not be empty are not. */
  predicate TablesWritable(s: R.TrackState)
  {
    && 0 < |s.times| <= MAX_ENTRY_COUNT && |s.syncs| <= MAX_ENTRY_COUNT && 0 < |s.chunkMap| <= MAX_ENTRY_COUNT
    && 0 < |s.samples| <= MAX_ENTRY_COUNT && |s.chunks| == |s.samples|
    && (s.config.Aac? ==> |s.config.asc| < TWO32)
  }

  predicate AllWritable(rows: seq<TrackRow>)
  {
    forall i :: 0 <= i < |rows| ==> rows[i].state.samples == [] || TablesWritable(rows[i].state)
  }

  lemma TableBoxesWellTyped(s: R.TrackState)
    requires TablesWritable(s)
    ensures AllWellTyped(TableBoxes(s)) && AllPlaced(STBL, TableBoxes(s))
  {
  }

  lemma MediaBoxWellTyped(kind: J.TrackType)
    ensures WellTyped(MediaBox(kind)) && WellTyped(Dinf()) && WellPlaced(MINF, MediaBox(kind)) && WellPlaced(MINF, Dinf())
  {
    hide BE32, BE16, WordBytes;
    assert WellTyped(Opaque(DREF, WordBytes(DREF_WORDS)));
    WellTypedOne(Opaque(DREF, WordBytes(DREF_WORDS)), DINF);
  }

  lemma StblWellTyped(r: TrackRow, info: Info)
    requires TablesWritable(r.state)
    ensures WellTyped(Stbl(r, info)) && WellPlaced(MINF, Stbl(r, info))
  {
    hide TableBoxes;
    TableBoxesWellTyped(r.state);
    WellTypedOne(Header(StsdOf(r, info)), STBL);
    WellTypedConcat([Header(StsdOf(r, info))], TableBoxes(r.state), STBL);
  }

  lemma MdiaWellTyped(r: TrackRow, info: Info)
    requires TablesWritable(r.state)
    ensures WellTyped(Mdia(r, info)) && WellPlaced(TRAK, Mdia(r, info))
  {
    hide TableBoxes, Stbl, MediaBox, Dinf;
    StblWellTyped(r, info);
    MediaBoxWellTyped(r.state.info.kind);
    WellTypedOne(Stbl(r, info), MINF);
    WellTypedOne(Dinf(), MINF);
    WellTypedOne(MediaBox(r.state.info.kind), MINF);
    WellTypedConcat([Dinf()], [Stbl(r, info)], MINF);
    WellTypedConcat([MediaBox(r.state.info.kind)], [Dinf()] + [Stbl(r, info)], MINF);
    WellTypedOne(Minf(r, info), MDIA);
    WellTypedOne(Header(HdlrOf(r)), MDIA);
    WellTypedOne(Header(MdhdOf(r)), MDIA);
    WellTypedConcat([Header(HdlrOf(r))], [Minf(r, info)], MDIA);
    WellTypedConcat([Header(MdhdOf(r))], [Header(HdlrOf(r))] + [Minf(r, info)], MDIA);
  }

  lemma TrakWellTyped(r: TrackRow, info: Info)
    requires TablesWritable(r.state) && PlainMetas(r.state.metas)
    ensures WellTyped(TrakBox(r, info))
  {
    hide Mdia, MetaBoxes, PlainMetas;
    var more := MetaBoxes(r.state.metas, NO_COVER);
    MdiaWellTyped(r, info);
    MetaBoxesWellTyped(r.state.metas, NO_COVER, TRAK);
    WellTypedOne(Mdia(r, info), TRAK);
    WellTypedConcat([Mdia(r, info)], more, TRAK);
    if r.refIds != [] { WellTypedOne(Header(TrefOf(r)), TRAK); }
    WellTypedConcat(RefBoxes(r), [Mdia(r, info)] + more, TRAK);
    WellTypedOne(Header(TkhdOf(r)), TRAK);
    WellTypedConcat([Header(TkhdOf(r))], RefBoxes(r) + ([Mdia(r, info)] + more), TRAK);
  }

  lemma {:induction false} TraksWellTyped(rows: seq<TrackRow>, infos: u32 -> Info)
    requires AllWritable(rows) && AllPlain(rows)
    ensures AllWellTyped(Traks(rows, infos)) && AllPlaced(MOOV, Traks(rows, infos))
  {
    hide WellTyped, TrakBox, TablesWritable, WellPlaced, PlainMetas;
    if rows != [] {
      assert AllWritable(rows[1..]) && AllPlain(rows[1..]) by {
        assert forall i :: 0 <= i < |rows[1..]| ==> rows[1..][i] == rows[i + 1];
      }
      TraksWellTyped(rows[1..], infos);
      if rows[0].state.samples != [] {
        var info := infos(rows[0].state.handle);
        TrakWellTyped(rows[0], info);
        TrakPlaced(rows[0], info);
        WellTypedOne(TrakBox(rows[0], info), MOOV);
        WellTypedConcat([TrakBox(rows[0], info)], Traks(rows[1..], infos), MOOV);
      }
    }
  }

  lemma TrakPlaced(r: TrackRow, info: Info)
    ensures WellPlaced(MOOV, TrakBox(r, info))
  {
  }

  lemma MoovWellTyped(rows: seq<TrackRow>, timescale: u32, ms: seq<M.Meta>, c: CoverArt, fixed: Fixed)
    requires AllWritable(rows) && AllPlain(rows) && PlainMetas(ms)
    ensures WellTyped(Moov(rows, timescale, ms, c, fixed)) && Bounded(Moov(rows, timescale, ms, c, fixed))
  {
    hide Traks, AllWritable, AllPlain, PlainMetas, MetaBoxes;
    var mvhd := Header(MvhdOf(rows, timescale, fixed));
    TraksWellTyped(rows, fixed.infos);
    MetaBoxesWellTyped(ms, c, MOOV);
    WellTypedConcat(Traks(rows, fixed.infos), MetaBoxes(ms, c), MOOV);
    WellTypedOne(mvhd, MOOV);
    WellTypedConcat([mvhd], Traks(rows, fixed.infos) + MetaBoxes(ms, c), MOOV);
    WellTypedBounded(Moov(rows, timescale, ms, c, fixed));
  }

  // ---------- whether the writers give up ----------

  /** The configuration of every track that has samples can be written. */
  predicate AllDescribable(rows: seq<TrackRow>)
  {
    forall i :: 0 <= i < |rows| ==> rows[i].state.samples == [] || Describable(rows[i].state.info.kind, rows[i].state.config)
  }

  lemma TablesNotRefused(s: R.TrackState)
    requires TablesWritable(s)
    ensures AllBounded(TableBoxes(s)) && RefusalAll(TableBoxes(s)).None?
  {
    hide BoxBytes;
    forall b | b in TableBoxes(s) ensures b.Table? && Bounded(b) {
    }
    AllTablesNotRefused(TableBoxes(s));
  }

  lemma {:induction false} AllTablesNotRefused(bs: seq<Box>)
    requires AllBounded(bs) && forall b | b in bs :: b.Table?
    ensures RefusalAll(bs).None?
  {
    hide BoxBytes;
    if bs != [] {
      assert bs[0] in bs && Refusal(bs[0]).None?;
      AllTablesNotRefused(bs[1..]);
    }
  }

  /** The boxes of a track can be written exactly when its configuration can. */
  lemma TrakRefusal(r: TrackRow, info: Info)
    requires TablesWritable(r.state)
    ensures Bounded(TrakBox(r, info)) && (Refusal(TrakBox(r, info)).None? <==> Describable(r.state.info.kind, r.state.config))
  {
    hide BoxBytes, RefusalAll, TableBoxes, MetaBoxes, Describable, WordBytes, MediaContent;
    var more := MetaBoxes(r.state.metas, NO_COVER);
    var stsd := Header(StsdOf(r, info));
    TablesNotRefused(r.state);
    assert Bounded(stsd) && (Refusal(stsd).None? <==> Describable(r.state.info.kind, r.state.config));
    RefusalOne(stsd);
    NoneConcat([stsd], TableBoxes(r.state));
    ContainerRefused(STBL, [stsd] + TableBoxes(r.state));
    RefusalOne(Stbl(r, info));
    RefusalOne(Opaque(DREF, WordBytes(DREF_WORDS)));
    ContainerRefused(DINF, [Opaque(DREF, WordBytes(DREF_WORDS))]);
    NotRefusedCons(Dinf(), [Stbl(r, info)]);
    NotRefusedCons(MediaBox(r.state.info.kind), [Dinf()] + [Stbl(r, info)]);
    ContainerRefused(MINF, Minf(r, info).children);
    RefusalOne(Minf(r, info));
    NotRefusedCons(Header(HdlrOf(r)), [Minf(r, info)]);
    NotRefusedCons(Header(MdhdOf(r)), [Header(HdlrOf(r))] + [Minf(r, info)]);
    ContainerRefused(MDIA, Mdia(r, info).children);
    RefusalOne(Mdia(r, info));
    MetaBoxesSturdy(r.state.metas, NO_COVER);
    NoneConcat([Mdia(r, info)], more);
    RefsNotRefused(r);
    NoneConcat(RefBoxes(r), [Mdia(r, info)] + more);
    NotRefusedCons(Header(TkhdOf(r)), RefBoxes(r) + ([Mdia(r, info)] + more));
    ContainerRefused(TRAK, TrakBox(r, info).children);
  }

  lemma RefsNotRefused(r: TrackRow)
    ensures AllBounded(RefBoxes(r)) && RefusalAll(RefBoxes(r)).None?
  {
    if r.refIds != [] { RefusalOne(Header(TrefOf(r))); }
  }

  lemma {:induction false} TraksRefusal(rows: seq<TrackRow>, infos: u32 -> Info)
    requires AllWritable(rows)
    ensures AllBounded(Traks(rows, infos)) && (RefusalAll(Traks(rows, infos)).None? <==> AllDescribable(rows))
  {
    hide BoxBytes, RefusalAll, TrakBox, TablesWritable, Describable, Bounded, Refusal;
    if rows == [] {
      AllTablesNotRefused([]);
    } else {
      assert AllWritable(rows[1..]) && (AllDescribable(rows) ==> AllDescribable(rows[1..])) by {
        assert forall i :: 0 <= i < |rows[1..]| ==> rows[1..][i] == rows[i + 1];
      }
      assert AllDescribable(rows[1..]) && (rows[0].state.samples == [] || Describable(rows[0].state.info.kind, rows[0].state.config)) ==>
               AllDescribable(rows) by {
        assert forall i :: 0 < i < |rows| ==> rows[i] == rows[1..][i - 1];
      }
      TraksRefusal(rows[1..], infos);
      if rows[0].state.samples == [] {
        assert [] + Traks(rows[1..], infos) == Traks(rows[1..], infos);
      } else {
        var info := infos(rows[0].state.handle);
        TrakRefusal(rows[0], info);
        RefusalOne(TrakBox(rows[0], info));
        NoneConcat([TrakBox(rows[0], info)], Traks(rows[1..], infos));
      }
    }
  }

  /** The movie box can be written exactly when the configurations of all tracks with samples can. */
  lemma MoovRefusal(rows: seq<TrackRow>, timescale: u32, ms: seq<M.Meta>, c: CoverArt, fixed: Fixed)
    requires AllWritable(rows)
    ensures Bounded(Moov(rows, timescale, ms, c, fixed)) && (Refusal(Moov(rows, timescale, ms, c, fixed)).None? <==> AllDescribable(rows))
  {
    hide Traks, AllWritable, RefusalAll, BoxBytes, MetaBoxes;
    TraksRefusal(rows, fixed.infos);
    MetaBoxesSturdy(ms, c);
    NoneConcat(Traks(rows, fixed.infos), MetaBoxes(ms, c));
    NotRefusedCons(Header(MvhdOf(rows, timescale, fixed)), Traks(rows, fixed.infos) + MetaBoxes(ms, c));
    ContainerRefused(MOOV, Moov(rows, timescale, ms, c, fixed).children);
  }
}
