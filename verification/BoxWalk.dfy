/**
 The demuxer's walk over the boxes of a file: safe on any bytes, and faithful on
 the bytes of a tree.
 */
module BoxWalk {
  import opened Bytes
  import opened Wrappers
  import opened TimeTable
  import opened ChunkMap
  import opened BoxTree
  import opened MediaInput
  import opened ConfigBytes
  import opened HeaderBoxes
  import opened ConfigReader
  import opened HeaderReader
  import opened TextReader
  import J = JournalFormat

  datatype WalkResult = Consumed(n: nat) | Failed(error: ReadError)

  /** A track of the demuxer, as far as its boxes have been read. */
  datatype TrackTables = TrackTables(
    id: u32,
    timescale: u32,
    duration: u64,
    handler: Handler,
    refKind: u32,
    refs: seq<u32>,
    texts: Texts,
    times: Option<seq<TtsEntry>>,
    syncs: Option<seq<u32>>,
    sizes: Option<seq<u32>>,
    chunks: Option<seq<StcEntry>>,
    offsets: Option<seq<u64>>)

  const NO_TABLES := TrackTables(0, 0, 0, UnknownHandler, 0, [], NO_TEXTS, None, None, None, None, None)

  /** What the demuxer knows of the movie: the tracks and their descriptions, the timescale and the duration, and the metadata. */
  datatype Seen = Seen(tracks: seq<TrackTables>, descs: seq<Desc>, timescale: u32, duration: u64, notes: Notes)

  const NOTHING_SEEN := Seen([], [], 0, 0, NO_NOTES)

  /** Every track has a description, with sets as long as can be read. */
  predicate Sound(seen: Seen)
  {
    |seen.descs| == |seen.tracks| && forall k :: 0 <= k < |seen.descs| ==> ShortSets(seen.descs[k].sets)
  }

  /** The types whose content is nothing but boxes. */
  predicate IsContainer(kind: u32)
  {
    kind == MOOV || kind == UDTA || kind == MDIA || kind == MINF || kind == DINF || kind == STBL || kind == TRAK
  }

  predicate IsHeader(kind: u32)
  {
    kind == MVHD || kind == TKHD || kind == TREF || kind == MDHD || kind == HDLR || kind == STSD
  }

  /** The types the demuxer looks into for more than their size; it steps over all others. */
  predicate IsSpecial(kind: u32)
  {
    || IsContainer(kind) || IsTable(kind) || IsHeader(kind) || kind == UUID || kind == META || kind == ILST
    || kind == KEYS || kind == DATA || kind == LOCATION
  }

  /** The boxes of metadata that are read where they are. */
  predicate IsText(kind: u32, parent: u32)
  {
    kind == DATA || (kind == KEYS && parent == META) || (kind == LOCATION && parent == UDTA)
  }

  /** A type that means nothing to the demuxer. */
  predicate Plain(kind: u32)
  {
    !IsSpecial(kind) && MinSize(kind) == 0
  }

  /** The least content of a box of which nothing is kept. */
  function MinSize(kind: u32): nat
  {
    if kind == FTYP || kind == SMHD then 8
    else if kind == VMHD then 12
    else if kind == HMHD then 20
    else if kind == NMHD then 4
    else 0
  }

  predicate Defined(tt: TrackTables, kind: u32)
  {
    if kind == STTS then tt.times.Some?
    else if kind == STSS then tt.syncs.Some?
    else if kind == STSZ then tt.sizes.Some?
    else if kind == STSC then tt.chunks.Some?
    else tt.offsets.Some?
  }

  function Store(tt: TrackTables, t: Table): TrackTables
  {
    match t
    case Stts(es) => tt.(times := Some(es))
    case Stss(es) => tt.(syncs := Some(es))
    case Stsz(es) => tt.(sizes := Some(es))
    case Stsc(es) => tt.(chunks := Some(es))
    case Stco(es) => tt.(offsets := Some(es))
  }

  // ---------- what a tree means to the demuxer ----------

  /** Boxes that mean something only in certain others are in those; the entries of a list of metadata have types that mean nothing else. */
  predicate WellPlaced(parent: u32, b: Box)
  {
    match b
    case Container(kind, _) =>
      if parent == ILST then Plain(kind)
      else IsContainer(kind) || (kind == META && (parent == MOOV || parent == TRAK)) || (kind == ILST && parent == META)
    case Full(kind, _) => kind == META && parent == UDTA
    case Header(h) =>
      && parent != ILST && (h.Hdlr? ==> parent == MDIA) && (h.MetaHdlr? || h.Keys? ==> parent == META)
      && (h.Location? ==> parent == UDTA)
    case _ => parent != ILST
  }

  predicate AllPlaced(parent: u32, bs: seq<Box>)
  {
    forall b | b in bs :: WellPlaced(parent, b)
  }

  /** A header box with something in it. */
  predicate LegibleHeader(h: HeaderBox)
  {
    Writable(h) && (h.Tref? ==> h.ids != []) && (h.Location? ==> |h.value| < 0x1_0000) && |HeaderContent(h)| + 8 < TWO32
  }

  /** A tree whose boxes are what their types say, with sizes that fit their size fields. */
  predicate Legible(b: Box)
    decreases b
  {
    && Bounded(b)
    && match b
       case Container(kind, cs) =>
         AllLegible(cs) && AllPlaced(kind, cs) && (kind == TRAK || kind == ILST ==> cs != []) && |BoxBytes(b)| < TWO32
       case Full(kind, cs) => AllLegible(cs) && AllPlaced(kind, cs) && |BoxBytes(b)| < TWO32
       case Opaque(kind, p) =>
         !IsSpecial(kind) && MinSize(kind) <= |p| && |p| + 8 < TWO32
       case Large(kind, p) =>
         !IsSpecial(kind) && MinSize(kind) <= |p| && |p| + 16 < TWO63
       case Table(t) => Count(t) > 0
       case Header(h) => LegibleHeader(h)
  }

  predicate AllLegible(bs: seq<Box>)
    decreases bs
  {
    AllBounded(bs) && forall b | b in bs :: Legible(b)
  }

  /** What boxes tell the demuxer; of a description that cannot be read back whole, nothing is known. */
  datatype Found = Found(tracks: seq<TrackTables>, told: seq<Option<Desc>>, timescale: u32, duration: u64, notes: Notes)

  const NOTHING_FOUND := Found([], [], 0, 0, NO_NOTES)

  /** Where a box is: the types of its parent and of the one above, and the track it belongs to. */
  datatype Spot = Spot(parent: u32, above: u32, cur: Option<nat>)

  const TOP := Spot(ROOT, ROOT, None)

  /** Inside a box of this type. */
  function Inner(s: Spot, kind: u32): Spot
  {
    Spot(kind, s.parent, s.cur)
  }

  /** A track box was entered. */
  predicate Open(v: Found, cur: Option<nat>)
  {
    cur.Some? && cur.value < |v.tracks| && cur.value < |v.told|
  }

  function NewTrack(v: Found): Found
  {
    v.(tracks := v.tracks + [NO_TABLES], told := v.told + [Some(NO_DESC)])
  }

  function NoTags(v: Found): Found
  {
    v.(notes := v.notes.(tags := []))
  }

  function SetTrack(v: Found, k: nat, t: TrackTables): Found
    requires k < |v.tracks|
  {
    v.(tracks := v.tracks[k := t])
  }

  /** A description is told once, to a track whose type is known by then, if its sets are not too long. */
  predicate Telling(v: Found, cur: nat, kind: J.TrackType, c: J.Config, info: seq<byte>)
    requires cur < |v.tracks| && cur < |v.told|
  {
    v.told[cur] == Some(NO_DESC) && v.tracks[cur].handler == HandlerOf(kind) && Carried(kind, c) && |info| == HVCC_INFO
  }

  /** The metadata of the track, or of the file. */
  function TextsAt(tracks: seq<TrackTables>, notes: Notes, cur: Option<nat>): Texts
  {
    if cur.None? then notes.texts else if cur.value < |tracks| then tracks[cur.value].texts else NO_TEXTS
  }

  function WithTexts(v: Found, cur: Option<nat>, t: Texts): Found
  {
    if cur.None? then v.(notes := v.notes.(texts := t))
    else if cur.value < |v.tracks| then SetTrack(v, cur.value, v.tracks[cur.value].(texts := t))
    else v
  }

  /** A value: an empty one makes the demuxer refuse the file. */
  function VisitData(format: u32, value: seq<byte>, v: Found, s: Spot): Option<Found>
  {
    if value == [] then None
    else if format == UTF8 && IsTag(s.parent) then Some(v.(notes := v.notes.(tags := v.notes.tags + [(s.parent, value)])))
    else if KeptText(format, s.parent, TextsAt(v.tracks, v.notes, s.cur)) then
      Some(WithTexts(v, s.cur, Filled(TextsAt(v.tracks, v.notes, s.cur), s.parent, value)))
    else if IsPicture(format) && s.cur.None? then Some(v.(notes := WithPicture(v.notes, format, s.parent, value)))
    else Some(v)
  }

  /** A header box; none where the demuxer refuses the file. */
  function VisitHeader(h: HeaderBox, v: Found, s: Spot): Option<Found>
  {
    var cur := s.cur;
    match h
    case Mvhd(_, _, timescale, duration, _) => if timescale == 0 then None else Some(v.(timescale := timescale, duration := duration))
    case Tkhd(_, _, _, id, _, _, _, _) =>
      if !Open(v, cur) || v.timescale == 0 then None else Some(SetTrack(v, cur.value, v.tracks[cur.value].(id := id)))
    case Tref(reference, ids) =>
      if !Open(v, cur) then None
      else Some(SetTrack(v, cur.value, v.tracks[cur.value].(refKind := reference, refs := if ids == [] then [] else TrefRead(reference, ids))))
    case Mdhd(_, _, timescale, duration) =>
      if !Open(v, cur) || timescale == 0 then None
      else Some(SetTrack(v, cur.value, v.tracks[cur.value].(timescale := timescale, duration := duration)))
    case Hdlr(kind, _) =>
      if !Open(v, cur) then Some(v) else Some(SetTrack(v, cur.value, v.tracks[cur.value].(handler := HandlerOf(kind))))
    case Stsd(kind, c, _, info) =>
      if !Open(v, cur) then None
      else Some(v.(told := v.told[cur.value := if Telling(v, cur.value, kind, c, info) then Some(Told(kind, c)) else None]))
    case MetaHdlr(_) => Some(v)
    case Keys(keys) => if |keys| > MAX_KEYS then None else Some(WithTexts(v, cur, Blank(keys)))
    case Data(format, value) => VisitData(format % 0x100, value, v, s)
    case Location(value) => Some(v.(notes := v.notes.(location := Some(value))))
  }

  function TrefRead(reference: u32, ids: seq<u32>): seq<u32>
    requires ids != []
  {
    TrefLength(Tref(reference, ids));
    ReferencesRead(TrefWords(reference, ids, |ids|))
  }

  /**
     What a tree tells: a trak box opens a track, a table box fills the open track once,
     and a list of metadata in a udta box replaces the tags there were. None where the
     demuxer refuses the file.
  */
  function Visit(b: Box, v: Found, s: Spot): Option<Found>
    decreases b
  {
    match b
    case Container(kind, cs) =>
      if kind == TRAK then VisitAll(cs, NewTrack(v), Spot(TRAK, s.parent, Some(|v.tracks|)))
      else if kind == ILST && s.above == UDTA then VisitAll(cs, NoTags(v), Inner(s, kind))
      else VisitAll(cs, v, Inner(s, kind))
    case Full(kind, cs) => VisitAll(cs, v, Inner(s, kind))
    case Table(t) =>
      if !Open(v, s.cur) || Defined(v.tracks[s.cur.value], Kind(t)) then None
      else Some(SetTrack(v, s.cur.value, Store(v.tracks[s.cur.value], t)))
    case Header(h) => VisitHeader(h, v, s)
    case _ => Some(v)
  }

  function VisitAll(bs: seq<Box>, v: Found, s: Spot): Option<Found>
    decreases bs
  {
    if bs == [] then Some(v)
    else
      var next := Visit(bs[0], v, s);
      if next.None? then None else VisitAll(bs[1..], next.value, s)
  }

  /** The demuxer has what the boxes told. */
  predicate Agrees(seen: Seen, v: Found)
  {
    && seen.tracks == v.tracks && seen.timescale == v.timescale && seen.duration == v.duration && seen.notes == v.notes
    && |seen.descs| == |v.told| == |v.tracks|
    && forall k :: 0 <= k < |v.told| && v.told[k].Some? ==> seen.descs[k] == v.told[k].value
  }

  /** Every description was told. */
  predicate Sure(v: Found)
  {
    forall k :: 0 <= k < |v.told| ==> v.told[k].Some?
  }

  /** How a walk relates to what the boxes tell: it fails where they say so, and succeeds if all descriptions can be told. */
  predicate Follows(ok: bool, seen: Seen, v: Option<Found>)
  {
    && (v.None? ==> !ok)
    && (v.Some? && ok ==> Agrees(seen, v.value))
    && (v.Some? && Sure(v.value) ==> ok)
  }

  predicate StartsWithFtyp(bs: seq<Box>)
  {
    bs != [] && bs[0].Opaque? && bs[0].kind == FTYP
  }

  /** What follows the 8-byte header of a table box. */
  function TablePayload(t: Table): seq<byte>
    requires Count(t) <= MAX_ENTRY_COUNT
  {
    WordBytes(HeaderWords(t)) + WordBytes(EntryWords(t))
  }

  datatype Step = Advance(extent: nat, last: bool) | Truncated | Stop(error: ReadError)

  datatype BoxHead = Good(size: u32, kind: u32, length: nat, extent: int) | NoHead(error: ReadError)

  // ---------- boxes from the outside ----------

  function HeaderLength(b: Box): nat { if b.Large? then 16 else 8 }

  function KindOf(b: Box): u32
  {
    match b
    case Container(kind, _) => kind
    case Full(kind, _) => kind
    case Opaque(kind, _) => kind
    case Large(kind, _) => kind
    case Table(t) => Kind(t)
    case Header(h) => HeaderKind(h)
  }

  function Content(b: Box): seq<byte>
    requires Bounded(b) && (b.Header? ==> Writable(b.header))
  {
    match b
    case Container(_, cs) => AllBytes(cs)
    case Full(_, cs) => BE32(0) + AllBytes(cs)
    case Opaque(_, p) => p
    case Large(_, p) => p
    case Table(t) => TablePayload(t)
    case Header(h) => HeaderContent(h)
  }

  /** Header fields and content of the bytes of a box. */
  lemma BoxShape(b: Box)
    requires Legible(b)
    ensures var s := BoxBytes(b);
            && |s| == HeaderLength(b) + |Content(b)| && s[HeaderLength(b)..] == Content(b)
            && FromBE32(s[..4]) == (if b.Large? then 1 else |s|)
            && FromBE32(s[4..8]) == KindOf(b)
            && (b.Large? ==> FromBE32(s[8..12]) * TWO32 + FromBE32(s[12..16]) == |s| < TWO63)
  {
    hide FromBE32, BoxBytes, Content, KindOf;
    if b.Large? {
      LargeShape(b.kind, b.payload);
    } else {
      SmallShape(b);
      Split(BE32(|BoxBytes(b)|), BE32(KindOf(b)), Content(b));
    }
  }

  /** All boxes but the largest start with a size of 32 bits. */
  lemma SmallShape(b: Box)
    requires Legible(b) && !b.Large?
    ensures |BoxBytes(b)| == 8 + |Content(b)| < TWO32 && BoxBytes(b) == BE32(|BoxBytes(b)|) + BE32(KindOf(b)) + Content(b)
  {
    hide BE32, AllBytes, HeaderContent, TablePayload, TableBytes, LegibleHeader, HeaderBytes, AllPlaced, AllLegible, IsSpecial, MinSize;
    if b.Table? {
      TableShape(b.table);
    } else if b.Header? {
      HeaderBoxShape(b.header);
    } else {
      PlainShape(b);
    }
  }

  lemma PlainShape(b: Box)
    requires Bounded(b) && |BoxBytes(b)| < TWO32 && (b.Container? || b.Full? || b.Opaque?)
    ensures |BoxBytes(b)| == 8 + |Content(b)| && BoxBytes(b) == BE32(|BoxBytes(b)|) + BE32(KindOf(b)) + Content(b)
  {
    hide BE32, AllBytes, AllBounded;
    match b {
      case Container(kind, cs) => Sized(kind, AllBytes(cs));
      case Full(kind, cs) => Sized(kind, BE32(0) + AllBytes(cs));
      case Opaque(kind, p) => Sized(kind, p);
    }
  }

  /** A size of 32 bits that does not wrap around. */
  lemma Sized(kind: u32, p: seq<byte>)
    ensures var s := BE32((8 + |p|) % TWO32) + BE32(kind) + p;
            |s| == 8 + |p| && (|s| < TWO32 ==> s == BE32(|s|) + BE32(kind) + p)
  {
    hide BE32;
  }

  lemma LargeShape(kind: u32, p: seq<byte>)
    requires |p| + 16 < TWO63
    ensures var s, n := BoxBytes(Large(kind, p)), 16 + |p|;
            && Content(Large(kind, p)) == p && KindOf(Large(kind, p)) == kind && |s| == n && s[16..] == p && FromBE32(s[..4]) == 1 && FromBE32(s[4..8]) == kind
            && FromBE32(s[8..12]) * TWO32 + FromBE32(s[12..16]) == n
  {
    hide BE32, FromBE32;
    var n := 16 + |p|;
    Split(BE32(1), BE32(kind), BE64(n) + p);
    Split(BE32(n / TWO32), BE32(n % TWO32), p);
    var s := BoxBytes(Large(kind, p));
    assert s == BE32(1) + BE32(kind) + (BE64(n) + p);
    assert s[8..12] == s[8..][..4] && s[12..16] == s[8..][4..8] && s[16..] == s[8..][8..];
  }

  lemma TableShape(t: Table)
    requires 0 < Count(t) <= MAX_ENTRY_COUNT
    ensures 8 + |TablePayload(t)| < TWO32 && TableBytes(t) == BE32(8 + |TablePayload(t)|) + BE32(Kind(t)) + TablePayload(t)
  {
    hide BE32, WordBytes, EntryWords;
    WordBytesAppend(HeaderWords(t), EntryWords(t));
  }

  lemma HeaderBoxShape(h: HeaderBox)
    requires LegibleHeader(h)
    ensures 8 + |HeaderContent(h)| < TWO32 && HeaderBytes(h) == BE32(8 + |HeaderContent(h)|) + BE32(HeaderKind(h)) + HeaderContent(h)
  {
    hide BE32, HeaderContent, HeaderKind;
    var n: nat := 8 + |HeaderContent(h)|;
    assert n % TWO32 == n;
  }

  lemma Split(a: seq<byte>, b: seq<byte>, c: seq<byte>)
    requires |a| == |b| == 4
    ensures var s := a + b + c; s[..4] == a && s[4..8] == b && s[8..] == c
  {
  }

  // ---------- visiting in order ----------

  lemma {:induction false} VisitAllAppend(a: seq<Box>, b: seq<Box>, v: Found, s: Spot)
    ensures VisitAll(a + b, v, s) ==
            var mid := VisitAll(a, v, s); if mid.None? then None else VisitAll(b, mid.value, s)
  {
    hide Visit;
    if a == [] {
      assert a + b == b;
    } else {
      assert (a + b)[1..] == a[1..] + b;
      var next := Visit(a[0], v, s);
      if next.Some? { VisitAllAppend(a[1..], b, next.value, s); }
    }
  }

  /** After the first `k` boxes, the next one decides how the walk goes on. */
  lemma VisitNext(bs: seq<Box>, k: nat, v: Found, s: Spot, mid: Found)
    requires k < |bs| && VisitAll(bs[..k], v, s) == Some(mid)
    ensures VisitAll(bs[..k + 1], v, s) == Visit(bs[k], mid, s)
    ensures Visit(bs[k], mid, s).None? ==> VisitAll(bs, v, s).None?
    ensures Visit(bs[k], mid, s).Some? ==> VisitAll(bs, v, s) == VisitAll(bs[k + 1..], Visit(bs[k], mid, s).value, s)
  {
    hide Visit;
    assert bs[..k + 1] == bs[..k] + [bs[k]];
    VisitAllAppend(bs[..k], [bs[k]], v, s);
    assert [bs[k]][1..] == [];
    assert bs == bs[..k + 1] + bs[k + 1..];
    VisitAllAppend(bs[..k + 1], bs[k + 1..], v, s);
  }

  /** Tracks and descriptions come in pairs. */
  predicate Matched(v: Found)
  {
    |v.told| == |v.tracks|
  }

  /** What cannot be told stays untold. */
  lemma {:induction false} SureBefore(b: Box, v: Found, s: Spot)
    requires Visit(b, v, s).Some? && Matched(v)
    ensures Matched(Visit(b, v, s).value) && |v.tracks| <= |Visit(b, v, s).value.tracks|
    ensures Sure(Visit(b, v, s).value) ==> Sure(v)
    decreases b
  {
    hide TrefRead, Store, Defined, Kind, Telling;
    match b {
      case Container(kind, cs) =>
        if kind == TRAK {
          SureBeforeAll(cs, NewTrack(v), Spot(TRAK, s.parent, Some(|v.tracks|)));
          assert forall k :: 0 <= k < |v.told| ==> NewTrack(v).told[k] == v.told[k];
        } else {
          SureBeforeAll(cs, if kind == ILST && s.above == UDTA then NoTags(v) else v, Inner(s, kind));
        }
      case Full(kind, cs) => SureBeforeAll(cs, v, Inner(s, kind));
      case Header(h) =>
        var w := VisitHeader(h, v, s).value;
        if h.Stsd? && Sure(w) {
          assert w.told[s.cur.value].Some?;
          forall k | 0 <= k < |v.told| ensures v.told[k].Some? {
            if k != s.cur.value { assert w.told[k] == v.told[k]; }
            if k == s.cur.value { StsdTold(h, v, s); }
          }
        }
      case _ =>
    }
  }

  lemma StsdTold(h: HeaderBox, v: Found, s: Spot)
    requires h.Stsd? && Open(v, s.cur) && VisitHeader(h, v, s).value.told[s.cur.value].Some?
    ensures v.told[s.cur.value].Some?
  {
  }

  lemma {:induction false} SureBeforeAll(bs: seq<Box>, v: Found, s: Spot)
    requires VisitAll(bs, v, s).Some? && Matched(v)
    ensures Matched(VisitAll(bs, v, s).value) && |v.tracks| <= |VisitAll(bs, v, s).value.tracks|
    ensures Sure(VisitAll(bs, v, s).value) ==> Sure(v)
    decreases bs
  {
    hide Visit, Sure;
    if bs != [] {
      SureBefore(bs[0], v, s);
      SureBeforeAll(bs[1..], Visit(bs[0], v, s).value, s);
    }
  }

  /** A size of 64 bits is taken for a signed number. */
  function Signed(x: u64): (n: int)
    ensures (n < 0 <==> x >= TWO63) && (n >= 0 ==> n == x)
  {
    if x < TWO63 then x else x - TWO64
  }

  class Walker {
    const file: MediaFile
    var seen: Seen
    ghost var extents: seq<(nat, nat)>  // start and end of every box entered
    ghost var strayed: bool             // the entries of some list were not where they were counted

    constructor (file: MediaFile)
      ensures this.file == file && seen == NOTHING_SEEN && extents == [] && !strayed
    {
      this.file, seen, extents, strayed := file, NOTHING_SEEN, [], false;
    }

    /** The counts in front of the entries of a table. */
    lemma HeaderFields(t: Table, start: nat)
      requires Count(t) <= MAX_ENTRY_COUNT
      requires start + |TablePayload(t)| <= |file.bytes| && file.bytes[start..start + |TablePayload(t)|] == TablePayload(t)
      ensures var h := if t.Stsz? then 12 else 8;
              && |TablePayload(t)| == h + 4 * (Stride(Kind(t)) * Count(t))
              && FromBE32(file.bytes[start + h - 4..start + h]) == Count(t)
              && (t.Stsz? ==> FromBE32(file.bytes[start + 4..start + 8]) == 0)
    {
      hide BE32, EntryWords;
      var header := HeaderWords(t);
      var n := |header|;
      WordAt(header, n - 1);
      file.Slice(start, TablePayload(t), 4 * n - 4, 4 * n);
      assert TablePayload(t)[4 * n - 4..4 * n] == WordBytes(header)[4 * n - 4..4 * n];
      if t.Stsz? {
        WordAt(header, 1);
        file.Slice(start, TablePayload(t), 4, 8);
        assert TablePayload(t)[4..8] == WordBytes(header)[4..8];
      }
    }

    /** The entries read are the entries written. */
    lemma EntriesFrom(t: Table, start: nat, w: seq<u32>)
      requires Count(t) <= MAX_ENTRY_COUNT && |w| == |EntryWords(t)|
      requires start + |TablePayload(t)| <= |file.bytes| && file.bytes[start..start + |TablePayload(t)|] == TablePayload(t)
      requires var h := 4 * |HeaderWords(t)|;
               |w| > 0 ==> file.bytes[start + h..start + h + 4 * |w|] == WordBytes(w)
      ensures FromWords(Kind(t), Count(t), w) == t
    {
      hide EntryWords, WordBytes, FromWords;
      var h := 4 * |HeaderWords(t)|;
      file.Slice(start, TablePayload(t), h, |TablePayload(t)|);
      assert TablePayload(t)[h..] == WordBytes(EntryWords(t));
      if |w| > 0 {
        WordBytesInjective(w, EntryWords(t));
      } else {
        assert w == EntryWords(t);
      }
      WordsRoundTrip(t);
    }

    /** A table box is whole: its count is within the limit, and its entries, if it has any of its own, are in the box and in the file. */
    predicate TableThere(kind: u32, at: nat, max: nat)
      requires IsTable(kind)
    {
      var h := if kind == STSZ then 12 else 8;
      && h <= max && at + h <= |file.bytes|
      && var n: nat := file.Word(at + h - 4);
         && n <= 10000000
         && ((kind == STSZ && file.Word(at + 4) > 0)
             || (h + 4 * (Stride(kind) * n) <= max && (n > 0 ==> at + h + 4 * (Stride(kind) * n) <= |file.bytes|)))
    }

    /** `n` pairs of words from `at` on. */
    ghost predicate PairsAre(es: seq<TtsEntry>, at: nat, n: nat)
    {
      |es| == n && forall i :: 0 <= i < n ==> at + 8 * i + 8 <= |file.bytes| && es[i] == TtsEntry(file.Word(at + 8 * i), file.Word(at + 8 * i + 4))
    }

    ghost predicate TriplesAre(es: seq<StcEntry>, at: nat, n: nat)
    {
      |es| == n && forall i :: 0 <= i < n ==>
        && at + 12 * i + 12 <= |file.bytes|
        && es[i] == StcEntry(file.Word(at + 12 * i), file.Word(at + 12 * i + 4), file.Word(at + 12 * i + 8))
    }

    ghost predicate OffsetsAre(es: seq<u64>, wide: bool, at: nat, n: nat)
    {
      |es| == n && forall i :: 0 <= i < n ==>
        if wide then at + 8 * i + 8 <= |file.bytes| && es[i] == file.Word(at + 8 * i) * TWO32 + file.Word(at + 8 * i + 4)
        else at + 4 * i + 4 <= |file.bytes| && es[i] == file.Word(at + 4 * i)
    }

    /** The table that a whole box of its kind holds, entry by entry; in stsz, a size common to all samples stands before the count. */
    ghost predicate TableIs(kind: u32, at: nat, max: nat, t: Table)
      requires IsTable(kind) && TableThere(kind, at, max)
    {
      var n: nat := file.Word(at + if kind == STSZ then 8 else 4);
      match t
      case Stts(es) => kind == STTS && PairsAre(es, at + 8, n)
      case Stss(es) => kind == STSS && |es| == n && file.WordsAre(es, at + 8)
      case Stsz(es) =>
        && kind == STSZ && |es| == n
        && if file.Word(at + 4) > 0 then forall i :: 0 <= i < n ==> es[i] == file.Word(at + 4) else file.WordsAre(es, at + 12)
      case Stsc(es) => kind == STSC && TriplesAre(es, at + 8, n)
      case Stco(es) => (kind == STCO || kind == CO64) && OffsetsAre(es, kind == CO64, at + 8, n)
    }

    /** The words behind the count, put together to entries. */
    lemma EntriesThere(kind: u32, at: nat, max: nat, w: seq<u32>)
      requires IsTable(kind) && TableThere(kind, at, max)
      requires var h := if kind == STSZ then 12 else 8;
               && |w| == Stride(kind) * file.Word(at + h - 4) && file.WordsAre(w, at + h)
               && (kind == STSZ ==> file.Word(at + 4) == 0)
      ensures var n: nat := file.Word(at + if kind == STSZ then 8 else 4);
              |w| == Stride(kind) * n && TableIs(kind, at, max, FromWords(kind, n, w))
    {
      hide MediaFile.Word;
    }

    /** A track that had no such table has this one; everything else of it is as it was. */
    predicate TableAdded(was: TrackTables, now: TrackTables, t: Table)
    {
      match t
      case Stts(es) => was.times == None && now == was.(times := Some(es))
      case Stss(es) => was.syncs == None && now == was.(syncs := Some(es))
      case Stsz(es) => was.sizes == None && now == was.(sizes := Some(es))
      case Stsc(es) => was.chunks == None && now == was.(chunks := Some(es))
      case Stco(es) => was.offsets == None && now == was.(offsets := Some(es))
    }

    /** On any bytes: the track gets the table that the box holds. */
    ghost predicate TableRead(kind: u32, at: nat, max: nat, was: TrackTables, now: TrackTables)
      requires IsTable(kind)
    {
      TableThere(kind, at, max) && exists t: Table :: TableIs(kind, at, max, t) && TableAdded(was, now, t)
    }

    lemma TableStored(kind: u32, at: nat, max: nat, was: TrackTables, t: Table)
      requires IsTable(kind) && TableThere(kind, at, max) && TableIs(kind, at, max, t) && !Defined(was, kind)
      ensures TableRead(kind, at, max, was, Store(was, t))
    {
      hide TableThere, PairsAre, TriplesAre, OffsetsAre, MediaFile.WordsAre;
      assert TableAdded(was, Store(was, t), t);
    }

    lemma CommonSize(at: nat, max: nat, n: nat, size: u32)
      requires TableThere(STSZ, at, max) && size > 0 && file.Word(at + 4) == size && file.Word(at + 8) == n
      ensures TableIs(STSZ, at, max, Stsz(seq(n, _ => size)))
    {
    }

    /**
     The table readers: checks first, then the entries, then the rest of the box is
     skipped. When `good`, the content of table `t` comes next.
     */
    method ReadTable(kind: u32, max: nat, cur: Option<nat>, ghost good: bool, ghost t: Table) returns (r: WalkResult)
      requires IsTable(kind) && (cur.Some? ==> cur.value < |seen.tracks|)
      requires good ==> kind == Kind(t) && Count(t) <= MAX_ENTRY_COUNT && max == |TablePayload(t)| && file.Next(TablePayload(t))
      modifies file`pos, `seen
      ensures r.Consumed? ==> r.n == max && file.pos == old(file.pos) + max
      ensures file.pos >= old(file.pos) && |seen.tracks| == |old(seen.tracks)|
      ensures seen == old(seen).(tracks := seen.tracks)
      ensures r.Consumed? && cur.Some? ==>
                && seen.tracks == old(seen).tracks[cur.value := seen.tracks[cur.value]]
                && TableRead(kind, old(file.pos), max, old(seen).tracks[cur.value], seen.tracks[cur.value])
      ensures cur.Some? && !Defined(old(seen).tracks[cur.value], kind) ==> (r.Consumed? <==> TableThere(kind, old(file.pos), max))
      ensures cur.None? || Defined(old(seen).tracks[cur.value], kind) ==> r.Failed?
      ensures good && cur.Some? && !Defined(old(seen).tracks[cur.value], kind) ==>
                r.Consumed? && seen.tracks == old(seen).tracks[cur.value := Store(old(seen).tracks[cur.value], t)]
    {
      hide WordBytes, BE32, FromBE32, EntryWords, HeaderWords, FromWords, Store, Defined, TablePayload, Kind, TableRead, TableIs;
      hide MediaFile.WordsAre;
      if cur.None? { return Failed(Einval); }
      if Defined(seen.tracks[cur.value], kind) { return Failed(Eexist); }
      var start := file.pos;
      if good { HeaderFields(t, start); }
      var count;
      r, count := ReadTableHeader(kind, max, good, t);
      if r.Failed? { return; }
      var table;
      if r.n == 0 {
        var header := if kind == STSZ then 12 else 8;
        var n := Stride(kind) * count;
        if max < header + 4 * n { return Failed(Einval); }
        var w := file.ReadWords(n);
        if w.None? { return Failed(Eio); }
        table := FromWords(kind, count, w.value);
        EntriesThere(kind, start, max, w.value);
        if good { EntriesFrom(t, start, w.value); }
      } else {
        table := Stsz(seq(count, _ => r.n));
        CommonSize(start, max, count, r.n);
      }
      TableStored(kind, start, max, seen.tracks[cur.value], table);
      seen := seen.(tracks := seen.tracks[cur.value := Store(seen.tracks[cur.value], table)]);
      file.pos := start + max;
      return Consumed(max);
    }

    /** Version, common sample size (returned in the result, 0 if there is none) and entry count. */
    method ReadTableHeader(kind: u32, max: nat, ghost good: bool, ghost t: Table) returns (r: WalkResult, count: nat)
      requires IsTable(kind)
      requires good ==>
        && Count(t) <= MAX_ENTRY_COUNT && (kind == STSZ <==> t.Stsz?) && (if t.Stsz? then 12 else 8) <= max
        && var h := if t.Stsz? then 12 else 8;
           && file.pos + h <= |file.bytes| && FromBE32(file.bytes[file.pos + h - 4..file.pos + h]) == Count(t)
           && (t.Stsz? ==> FromBE32(file.bytes[file.pos + 4..file.pos + 8]) == 0)
      modifies file`pos
      ensures file.pos >= old(file.pos)
      ensures r.Consumed? ==> file.pos == old(file.pos) + (if kind == STSZ then 12 else 8) <= old(file.pos) + max && r.n < TWO32
      ensures r.Consumed? && kind != STSZ ==> r.n == 0
      ensures var h := if kind == STSZ then 12 else 8;
              && (r.Consumed? <==> h <= max && old(file.pos) + h <= |file.bytes| && file.Word(old(file.pos) + h - 4) <= MAX_ENTRY_COUNT)
              && (r.Consumed? ==> count == file.Word(old(file.pos) + h - 4))
              && (r.Consumed? && kind == STSZ ==> r.n == file.Word(old(file.pos) + 4))
      ensures good ==> r == Consumed(0) && count == Count(t)
    {
      hide FromBE32;
      count := 0;
      if max < (if kind == STSZ then 12 else 8) { return Failed(Einval), 0; }
      var version := file.Read32();
      if version.None? { return Failed(Eio), 0; }
      var common: nat := 0;
      if kind == STSZ {
        var x := file.Read32();
        if x.None? { return Failed(Eio), 0; }
        common := x.value;
      }
      var c := file.Read32();
      if c.None? { return Failed(Eio), 0; }
      if c.value > MAX_ENTRY_COUNT { return Failed(Eproto), 0; }
      return Consumed(common), c.value;
    }

    // ---------- the header boxes ----------

    /** The content of this header box comes next, and fills the box. */
    ghost predicate HeaderIs(h: HeaderBox, kind: u32, max: nat, v: Found)
      reads file`pos, `seen
    {
      && HeaderKind(h) == kind && LegibleHeader(h) && file.Next(HeaderContent(h)) && max == |HeaderContent(h)| && Agrees(seen, v)
    }

    /** The movie header: on any bytes, the timescale and the duration that its version has room for. */
    method ReadMovieHeader(s: Spot, max: nat, ghost good: bool, ghost h: HeaderBox, ghost v: Found) returns (r: WalkResult)
      requires Sound(seen) && (good ==> HeaderIs(h, MVHD, max, v))
      modifies file`pos, `seen
      ensures file.pos >= old(file.pos) && Sound(seen) && |seen.tracks| == |old(seen.tracks)|
      ensures r.Consumed? ==> r.n == max && file.pos == old(file.pos) + max
      ensures r.Consumed? <==> LongEnough(file, old(file.pos), max, 100) && AfterTimes(file, old(file.pos)) > 0
      ensures r.Consumed? ==> seen.timescale == AfterTimes(file, old(file.pos)) && DurationIs(file, old(file.pos), seen.duration)
      ensures seen == old(seen).(timescale := seen.timescale, duration := seen.duration)
      ensures good ==> Follows(r.Consumed?, seen, VisitHeader(h, v, s))
    {
      hide HeaderContent, ShortSets, LongEnough, DurationIs, AfterTimes;
      var x := HeaderReader.ReadMvhd(file, max, good, h);
      if x.LeafBad? { return Failed(x.error); }
      seen := seen.(timescale := x.value.0, duration := x.value.1);
      return Consumed(max);
    }

    /** What the content of such a box, at `at` and `max` bytes long, makes of the track it belongs to. */
    ghost predicate LeafRead(kind: u32, parent: u32, at: nat, max: nat, was: TrackTables, t: TrackTables)
    {
      if kind == TKHD then LongEnough(file, at, max, 84) && t == was.(id := AfterTimes(file, at))
      else if kind == MDHD then
        && LongEnough(file, at, max, 24) && DurationIs(file, at, t.duration) && t.timescale > 0
        && t == was.(timescale := AfterTimes(file, at), duration := t.duration)
      else if kind == TREF then
        && max >= 12 && |t.refs| == Min((max - 8) / 4, 10) && file.WordsAre([t.refKind] + t.refs, at + 4)
        && t == was.(refKind := t.refKind, refs := t.refs)
      else
        && at + 24 <= |file.bytes| && t == was.(handler := t.handler)
        && if parent == MDIA then HandledAs(file.bytes[at + 8..at + 12], t.handler) else t == was
    }

    /** The boxes that say what a track is: on any bytes, the fields that its version has room for. */
    method ReadTrackLeaf(kind: u32, s: Spot, max: nat, ghost good: bool, ghost h: HeaderBox, ghost v: Found) returns (r: WalkResult)
      requires Sound(seen) && (s.cur.Some? ==> s.cur.value < |seen.tracks|)
      requires kind == TKHD || kind == TREF || kind == MDHD || kind == HDLR
      requires good ==> HeaderIs(h, kind, max, v) && (h.Hdlr? ==> s.parent == MDIA) && (h.MetaHdlr? ==> s.parent == META)
      modifies file`pos, `seen
      ensures file.pos >= old(file.pos) && Sound(seen) && |seen.tracks| == |old(seen.tracks)|
      ensures r.Consumed? ==> r.n == max && file.pos == old(file.pos) + max
      ensures r.Consumed? && s.cur.Some? ==> LeafRead(kind, s.parent, old(file.pos), max, old(seen).tracks[s.cur.value], seen.tracks[s.cur.value])
      ensures s.cur.Some? ==> seen == old(seen).(tracks := old(seen).tracks[s.cur.value := seen.tracks[s.cur.value]])
      ensures s.cur.None? ==> seen == old(seen)
      ensures good ==> Follows(r.Consumed?, seen, VisitHeader(h, v, s))
    {
      hide HeaderContent, ShortSets, FixedWords, ReferencesRead, HandlerFrom;
      hide LongEnough, DurationIs, AfterTimes, HandledAs, MediaFile.WordsAre;
      var cur := s.cur;
      if cur.None? && kind != HDLR { return Failed(Einval); }
      var t := if cur.Some? then seen.tracks[cur.value] else NO_TABLES;
      if kind == TKHD {
        var x := HeaderReader.ReadTkhd(file, max, seen.timescale, good, h);
        if x.LeafBad? { return Failed(x.error); }
        t := t.(id := x.value);
      } else if kind == TREF {
        var x := HeaderReader.ReadTref(file, max, good, h);
        if x.LeafBad? { return Failed(x.error); }
        t := t.(refKind := x.value.0, refs := x.value.1);
      } else if kind == MDHD {
        var x := HeaderReader.ReadMdhd(file, max, good, h);
        if x.LeafBad? { return Failed(x.error); }
        t := t.(timescale := x.value.0, duration := x.value.1);
      } else {
        var x := HeaderReader.ReadHdlr(file, max, good, h);
        if x.LeafBad? { return Failed(x.error); }
        if s.parent == MDIA { t := t.(handler := x.value); }
      }
      if cur.Some? { seen := seen.(tracks := seen.tracks[cur.value := t]); }
      if good { TrackSet(h, old(seen), v, s, t); }
      return Consumed(max);
    }

    /** The open track is what the box says. */
    lemma TrackSet(h: HeaderBox, seen: Seen, v: Found, s: Spot, t: TrackTables)
      requires Agrees(seen, v) && (s.cur.Some? ==> s.cur.value < |seen.tracks|) && (s.cur.None? ==> h.Hdlr? || h.MetaHdlr?)
      requires s.cur.Some? ==>
                 var was := seen.tracks[s.cur.value];
                 match h
                 case Tkhd(_, _, _, id, _, _, _, _) => v.timescale != 0 && t == was.(id := id)
                 case Tref(reference, ids) =>
                   ids != [] && |FixedWords(h)| >= 3 && t == was.(refKind := FixedWords(h)[1], refs := ReferencesRead(FixedWords(h)))
                 case Mdhd(_, _, timescale, duration) => timescale != 0 && t == was.(timescale := timescale, duration := duration)
                 case Hdlr(kind, _) => t == was.(handler := HandlerOf(kind))
                 case MetaHdlr(_) => t == was
                 case _ => false
      ensures VisitHeader(h, v, s).Some?
      ensures Agrees(if s.cur.Some? then seen.(tracks := seen.tracks[s.cur.value := t]) else seen, VisitHeader(h, v, s).value)
    {
      hide ReferencesRead, TrefWords;
      if h.Tref? && s.cur.Some? { TrefLength(h); }
      if s.cur.Some? { assert seen.tracks[s.cur.value := seen.tracks[s.cur.value]] == seen.tracks; }
    }

    /** The sample description. */
    method ReadDescription(s: Spot, max: nat, ghost good: bool, ghost h: HeaderBox, ghost v: Found) returns (r: WalkResult)
      requires Sound(seen) && (s.cur.Some? ==> s.cur.value < |seen.tracks|) && (good ==> HeaderIs(h, STSD, max, v))
      modifies file`pos, `seen
      ensures file.pos >= old(file.pos) && Sound(seen) && |seen.tracks| == |old(seen.tracks)|
      ensures r.Consumed? ==> r.n == max && file.pos <= old(file.pos) + max
      ensures r.Consumed? && old(file.pos) + max <= |file.bytes| ==> file.pos == old(file.pos) + max
      ensures good ==> Follows(r.Consumed?, seen, VisitHeader(h, v, s))
    {
      hide HeaderContent, ShortSets, Told, StsdContent, Carried;
      if s.cur.None? { return Failed(Einval); }
      var k := s.cur.value;
      ghost var sound := good && Telling(v, k, h.kind, h.config, h.info);
      if good {
        StsdAlone(h);
        Untold(h, v, s);
      }
      var x := ConfigReader.ReadStsd(file, seen.tracks[k].handler, seen.descs[k], max, sound,
                                     if good then h.kind else J.Chapters, if good then h.config else J.NoConfig,
                                     if good then h.id else 0, if good then h.info else []);
      if x.EntryBad? { return Failed(x.error); }
      if x.n > max { return Failed(Eio); }
      seen := seen.(descs := seen.descs[k := x.desc]);
      return Consumed(max);
    }

    /** A description that is not told leaves the walk unsure. */
    lemma Untold(h: HeaderBox, v: Found, s: Spot)
      requires h.Stsd? && Open(v, s.cur)
      ensures VisitHeader(h, v, s).Some?
      ensures !Telling(v, s.cur.value, h.kind, h.config, h.info) ==> !Sure(VisitHeader(h, v, s).value)
    {
      if !Telling(v, s.cur.value, h.kind, h.config, h.info) {
        assert VisitHeader(h, v, s).value.told[s.cur.value].None?;
      }
    }

    lemma StsdAlone(h: HeaderBox)
      requires h.Stsd? && Writable(h)
      ensures HeaderContent(h) == StsdContent(h.kind, h.config, h.id, h.info)
    {
      hide StsdContent;
      assert WordBytes([]) == [];
      assert [] + Variable(h) == Variable(h);
    }

    /** A header box of any type. */
    method ReadHeaderBox(kind: u32, s: Spot, max: nat, ghost good: bool, ghost h: HeaderBox, ghost v: Found) returns (r: WalkResult)
      requires Sound(seen) && (s.cur.Some? ==> s.cur.value < |seen.tracks|) && IsHeader(kind)
      requires good ==> HeaderIs(h, kind, max, v) && (h.Hdlr? ==> s.parent == MDIA) && (h.MetaHdlr? ==> s.parent == META)
      modifies file`pos, `seen
      ensures file.pos >= old(file.pos) && Sound(seen) && |seen.tracks| == |old(seen.tracks)|
      ensures r.Consumed? ==> r.n == max && file.pos <= old(file.pos) + max
      ensures good && r.Consumed? ==> file.pos == old(file.pos) + max
      ensures good ==> Follows(r.Consumed?, seen, VisitHeader(h, v, s))
    {
      hide HeaderContent, Sound, Agrees, Follows, VisitHeader, LegibleHeader;
      if kind == MVHD {
        r := ReadMovieHeader(s, max, good, h, v);
      } else if kind == STSD {
        r := ReadDescription(s, max, good, h, v);
      } else {
        r := ReadTrackLeaf(kind, s, max, good, h, v);
      }
    }

    /** The boxes of which only the size matters. */
    method ReadSized(kind: u32, max: nat, ghost good: bool) returns (r: WalkResult)
      requires MinSize(kind) > 0 && (good ==> file.pos + max <= |file.bytes| && MinSize(kind) <= max)
      modifies file`pos
      ensures file.pos >= old(file.pos) && (r.Consumed? ==> r.n == max && file.pos == old(file.pos) + max)
      ensures good ==> r.Consumed?
    {
      var x;
      if kind == FTYP {
        x := HeaderReader.ReadFtyp(file, max, good);
      } else {
        x := HeaderReader.ReadPlain(file, MinSize(kind), max, good);
      }
      r := if x.LeafBad? then Failed(x.error) else Consumed(max);
    }

    // ---------- the boxes of metadata ----------

    /** A box of metadata of any type. */
    method ReadTextBox(kind: u32, s: Spot, max: nat, ghost good: bool, ghost h: HeaderBox, ghost v: Found) returns (r: WalkResult)
      requires Sound(seen) && (s.cur.Some? ==> s.cur.value < |seen.tracks|) && (kind == DATA || kind == KEYS || kind == LOCATION)
      requires good ==> HeaderIs(h, kind, max, v)
      modifies file`pos, `seen
      ensures file.pos >= old(file.pos) && Sound(seen) && |seen.tracks| == |old(seen.tracks)|
      ensures r.Consumed? ==> r.n == max && file.pos == old(file.pos) + max
      ensures good ==> Follows(r.Consumed?, seen, VisitHeader(h, v, s))
    {
      hide HeaderContent, Sound, Agrees, Follows, VisitHeader, LegibleHeader;
      if kind == KEYS {
        r := ReadKeysBox(s, max, good, h, v);
      } else if kind == LOCATION {
        r := ReadLocationBox(max, s, good, h, v);
      } else {
        r := ReadDataBox(s, max, good, h, v);
      }
    }

    /** The metadata of the open track, or of the file, is replaced. */
    method SetTexts(cur: Option<nat>, t: Texts)
      requires Sound(seen) && (cur.Some? ==> cur.value < |seen.tracks|)
      modifies `seen
      ensures Sound(seen) && |seen.tracks| == |old(seen.tracks)|
      ensures seen == if cur.None? then old(seen).(notes := old(seen).notes.(texts := t))
                      else old(seen).(tracks := old(seen).tracks[cur.value := old(seen).tracks[cur.value].(texts := t)])
    {
      hide ShortSets;
      if cur.None? {
        seen := seen.(notes := seen.notes.(texts := t));
      } else {
        seen := seen.(tracks := seen.tracks[cur.value := seen.tracks[cur.value].(texts := t)]);
      }
    }

    /** The list of keys: those of the file or the open track from then on, without values. */
    method ReadKeysBox(s: Spot, max: nat, ghost good: bool, ghost h: HeaderBox, ghost v: Found) returns (r: WalkResult)
      requires Sound(seen) && (s.cur.Some? ==> s.cur.value < |seen.tracks|) && (good ==> HeaderIs(h, KEYS, max, v))
      modifies file`pos, `seen
      ensures file.pos >= old(file.pos) && Sound(seen) && |seen.tracks| == |old(seen.tracks)|
      ensures r.Consumed? ==> r.n == max && file.pos == old(file.pos) + max
      ensures good ==> Follows(r.Consumed?, seen, VisitHeader(h, v, s))
    {
      hide HeaderContent, ShortSets;
      var x := TextReader.ReadKeys(file, max, good, if h.Keys? then h.keys else []);
      if x.LeafBad? { return Failed(x.error); }
      SetTexts(s.cur, Blank(x.value));
      return Consumed(max);
    }

    /** The location, in place of the one there was. */
    method ReadLocationBox(max: nat, ghost s: Spot, ghost good: bool, ghost h: HeaderBox, ghost v: Found) returns (r: WalkResult)
      requires Sound(seen) && (good ==> HeaderIs(h, LOCATION, max, v))
      modifies file`pos, `seen
      ensures file.pos >= old(file.pos) && Sound(seen) && |seen.tracks| == |old(seen.tracks)|
      ensures r.Consumed? ==> r.n == max && file.pos == old(file.pos) + max
      ensures good ==> Follows(r.Consumed?, seen, VisitHeader(h, v, s))
    {
      hide HeaderContent, ShortSets;
      var x := TextReader.ReadLocation(file, max, good, if h.Location? then h.value else []);
      if x.LeafBad? { return Failed(x.error); }
      seen := seen.(notes := seen.notes.(location := Some(x.value)));
      return Consumed(max);
    }

    /** A value. A text goes to the tags of the file or to its key; of a picture, the demuxer notes where it is. */
    method ReadDataBox(s: Spot, max: nat, ghost good: bool, ghost h: HeaderBox, ghost v: Found) returns (r: WalkResult)
      requires Sound(seen) && (s.cur.Some? ==> s.cur.value < |seen.tracks|) && (good ==> HeaderIs(h, DATA, max, v))
      modifies file`pos, `seen
      ensures file.pos >= old(file.pos) && Sound(seen) && |seen.tracks| == |old(seen.tracks)|
      ensures r.Consumed? ==> r.n == max && file.pos == old(file.pos) + max
      ensures good ==> Follows(r.Consumed?, seen, VisitHeader(h, v, s))
    {
      hide HeaderContent, ShortSets, Filled, IsTag, IsPicture, WithPicture;
      ghost var value := if h.Data? then h.value else [];
      var start := file.pos;
      var f := TextReader.ReadFormat(file, max, good, if h.Data? then h.format else 0, value);
      if f.LeafBad? { return Failed(f.error); }
      var format, parent := f.value, s.parent;
      var n, texts := (max - 8) % TWO32, TextsAt(seen.tracks, seen.notes, s.cur);
      if KeptText(format, parent, texts) {
        var x := TextReader.ReadValue(file, n, good, value);
        if x.LeafBad? { return Failed(x.error); }
        if IsTag(parent) {
          seen := seen.(notes := seen.notes.(tags := seen.notes.tags + [(parent, x.value)]));
        } else {
          SetTexts(s.cur, Filled(texts, parent, x.value));
        }
      } else if IsPicture(format) && s.cur.None? {
        seen := seen.(notes := WithPicture(seen.notes, format, parent, file.bytes[Min(file.pos, |file.bytes|)..Min(file.pos + n, |file.bytes|)]));
      }
      HeaderReader.SkipTo(file, start + max);
      return Consumed(max);
    }

    /**
     The entries of a list of tags are counted first, and the position is set back by
     the sum of their sizes. That is where the list starts unless an entry says to be
     shorter than its header: then the walk has strayed.
    */
    method CountEntries(max: nat, ghost good: bool, ghost boxes: seq<Box>) returns (r: Option<ReadError>)
      requires good ==> AllLegible(boxes) && AllPlaced(ILST, boxes) && boxes != [] && max == |AllBytes(boxes)| && file.Next(AllBytes(boxes))
      modifies file`pos, `strayed
      ensures file.pos >= old(file.pos) && (r.None? ==> (strayed <==> old(strayed) || file.pos != old(file.pos)))
      ensures r.Some? ==> strayed == old(strayed)
      ensures good ==> r.None? && file.pos == old(file.pos)
    {
      hide AllBytes, BoxBytes, Legible, AllPlaced, FromBE32;
      var start := file.pos;
      if good { EntriesNotEmpty(boxes); }
      if max < 8 { return Some(Einval); }
      var total: int := 0;
      ghost var k := 0;
      while total + 8 <= max
        invariant start <= file.pos && start + total <= file.pos && strayed == old(strayed)
        invariant good ==> k <= |boxes| && AllBounded(boxes[..k]) && total == |AllBytes(boxes[..k])| && file.pos == start + total
        decreases Max(|file.bytes| - file.pos, 0)
      {
        ghost var words: seq<u32> := [];
        if good {
          NextEntry(boxes, k, start, total);
          words := [|BoxBytes(boxes[k])|, KindOf(boxes[k])];
        }
        var head := file.ReadWords(2);
        if head.None? { return Some(Eio); }
        if good { WordBytesInjective(head.value, words); }
        var size: int, length := head.value[0], 8;
        if size == 0 { return Some(Enosys); }
        if size == 1 {
          if max < 24 { return Some(Einval); }
          var large := file.ReadWords(2);
          if large.None? { return Some(Eio); }
          size, length := Signed(large.value[0] * TWO32 + large.value[1]), 16;
          if size > |file.bytes| { return Some(Eproto); }
        }
        if size > length { file.pos := file.pos + (size - length); }
        total := total + size;
        k := k + 1;
      }
      if file.pos != start + total && file.pos - total >= TWO63 { return Some(Einval); }
      file.pos := file.pos - total;
      strayed := strayed || file.pos != start;
      return None;
    }

    lemma EntriesNotEmpty(boxes: seq<Box>)
      requires AllLegible(boxes) && boxes != []
      ensures |AllBytes(boxes)| >= 8 && AllBounded(boxes[..0]) && |AllBytes(boxes[..0])| == 0
    {
      hide BoxBytes, Legible;
      assert boxes[0] in boxes;
      BoxShape(boxes[0]);
    }

    lemma EntryShape(b: Box)
      requires Legible(b) && WellPlaced(ILST, b)
      ensures 8 <= |BoxBytes(b)| < TWO32 && BoxBytes(b)[..8] == WordBytes([|BoxBytes(b)|, KindOf(b)])
    {
      hide BoxBytes, AllBytes, FromBE32, BE32;
      BoxShape(b);
      var n: u32 := |BoxBytes(b)|;
      BE32Inverse(BoxBytes(b)[..4]);
      BE32Inverse(BoxBytes(b)[4..8]);
      assert BoxBytes(b)[..8] == BoxBytes(b)[..4] + BoxBytes(b)[4..8];
      TwoWords(n, KindOf(b));
    }

    lemma TwoWords(x: u32, y: u32)
      ensures WordBytes([x, y]) == BE32(x) + BE32(y)
    {
      hide BE32;
      assert [x, y][..1] == [x] && [x][..0] == [];
      assert WordBytes([]) == [] && WordBytes([x]) == BE32(x);
    }

    /** The size of the next entry is there. */
    lemma NextEntry(boxes: seq<Box>, k: nat, start: nat, total: nat)
      requires AllLegible(boxes) && AllPlaced(ILST, boxes) && start + |AllBytes(boxes)| <= |file.bytes|
      requires file.bytes[start..start + |AllBytes(boxes)|] == AllBytes(boxes)
      requires k <= |boxes| && AllBounded(boxes[..k]) && total == |AllBytes(boxes[..k])| && total + 8 <= |AllBytes(boxes)|
      ensures k < |boxes| && AllBounded(boxes[..k + 1])
      ensures var n := |BoxBytes(boxes[k])|;
              && |AllBytes(boxes[..k + 1])| == total + n <= |AllBytes(boxes)| && 8 <= n < TWO32
              && file.bytes[start + total..start + total + 8] == WordBytes([n, KindOf(boxes[k])])
    {
      hide AllBytes, BoxBytes, WordBytes, Legible, WellPlaced;
      assert boxes[..|boxes|] == boxes;
      AllBytesNext(boxes, k);
      assert boxes[k] in boxes;
      EntryShape(boxes[k]);
      file.Slice(start, AllBytes(boxes), total, total + 8);
      assert AllBytes(boxes)[total..total + 8] == BoxBytes(boxes[k])[..8];
    }

    // ---------- the walk ----------

    /** The boxes entered since `before` lie between these two positions of the file. */
    static ghost predicate Inside(before: seq<(nat, nat)>, after: seq<(nat, nat)>, lo: nat, hi: nat)
    {
      && |before| <= |after| && after[..|before|] == before
      && forall i :: |before| <= i < |after| ==> lo <= after[i].0 <= after[i].1 <= hi
    }

    static lemma InsideSelf(a: seq<(nat, nat)>, lo: nat, hi: nat)
      ensures Inside(a, a, lo, hi)
    {
    }

    static lemma InsideOne(a: seq<(nat, nat)>, x: (nat, nat), lo: nat, hi: nat)
      requires lo <= x.0 <= x.1 <= hi
      ensures Inside(a, a + [x], lo, hi)
    {
    }

    static lemma InsideTrans(a: seq<(nat, nat)>, b: seq<(nat, nat)>, c: seq<(nat, nat)>, lo: nat, hi: nat, lo': nat, hi': nat)
      requires Inside(a, b, lo, hi) && Inside(b, c, lo', hi') && lo <= lo' && hi' <= hi
      ensures Inside(a, c, lo, hi)
    {
      assert c[..|a|] == c[..|b|][..|a|];
      forall i | |a| <= i < |c| ensures lo <= c[i].0 <= c[i].1 <= hi {
        if i < |b| { assert c[..|b|][i] == b[i]; }
      }
    }

    /** The bytes after the header of this box come next, and its type and length are as announced. */
    ghost predicate ContentIs(box: Box, kind: u32, parent: u32, max: nat, v: Found)
      reads file`pos, `seen
    {
      && Legible(box) && WellPlaced(parent, box) && Agrees(seen, v)
      && KindOf(box) == kind && max == |Content(box)| && file.Next(Content(box))
    }

    /** The bytes of these boxes come next, and fill the parent. */
    ghost predicate ChildrenAre(boxes: seq<Box>, parent: u32, max: nat, v: Found)
      reads file`pos, `seen
    {
      && AllLegible(boxes) && AllPlaced(parent, boxes) && Agrees(seen, v)
      && max == |AllBytes(boxes)| && file.Next(AllBytes(boxes))
    }

    /** The track that the walk is in has been seen. */
    predicate Within(s: Spot)
      reads `seen
    {
      s.cur.Some? ==> s.cur.value < |seen.tracks|
    }

    /** The content of one box after its header; returns how much of `max` it consumed. */
    method ReadContent(kind: u32, s: Spot, level: nat, max: nat, ghost good: bool, ghost box: Box, ghost v: Found)
      returns (r: WalkResult)
      requires Sound(seen) && Within(s) && (good ==> ContentIs(box, kind, s.parent, max, v))
      modifies file`pos, `seen, `extents, `strayed
      ensures old(file.pos) <= file.pos && |old(seen.tracks)| <= |seen.tracks| && Sound(seen) && (old(strayed) ==> strayed)
      ensures r.Consumed? ==> r.n <= max && (!strayed ==> file.pos <= old(file.pos) + r.n)
      ensures !strayed ==> Inside(old(extents), extents, old(file.pos), old(file.pos) + max)
      ensures good ==> strayed == old(strayed) && (r.Consumed? ==> file.pos == old(file.pos) + r.n)
      ensures good ==> Follows(r.Consumed?, seen, Visit(box, v, s))
      decreases max, 4
    {
      hide AllBytes, TablePayload, BoxBytes, Visit, VisitAll, Kind, Inside, VisitHeader, ShortSets, Store, Defined, WellPlaced;
      hide Legible, Agrees, Follows, Content;
      InsideSelf(extents, file.pos, file.pos + max);
      if good { BoxOfKind(box, s, v); }
      ghost var h := if box.Header? then box.header else Hdlr(J.Video, []);
      if kind == UUID {
        if max < 16 { return Failed(Einval); }
        file.pos := Max(file.pos, Min(file.pos + 16, |file.bytes|));
        return Consumed(16);
      } else if IsTable(kind) {
        r := ReadTable(kind, max, s.cur, good, if box.Table? then box.table else Stss([]));
        if good { TableSeen(box.table, old(seen), seen, v, s, r.Consumed?); }
      } else if IsHeader(kind) {
        r := ReadHeaderBox(kind, s, max, good, h, v);
      } else if IsText(kind, s.parent) {
        r := ReadTextBox(kind, s, max, good, h, v);
      } else if MinSize(kind) > 0 {
        r := ReadSized(kind, max, good);
        if good { StillFollows(seen, v); }
      } else {
        r := ReadParent(kind, s, level, max, good, box, v);
      }
    }

    /** What the readers of a type of box need to know of a tree. */
    lemma BoxOfKind(b: Box, s: Spot, v: Found)
      requires Legible(b) && WellPlaced(s.parent, b)
      ensures var kind := KindOf(b);
              && kind != UUID && (IsTable(kind) <==> b.Table?)
              && (IsHeader(kind) || IsText(kind, s.parent) <==> b.Header?)
              && (!b.Table? && !b.Header? && MinSize(kind) > 0 ==> MinSize(kind) <= |Content(b)| && Visit(b, v, s) == Some(v))
      ensures b.Table? ==> Count(b.table) <= MAX_ENTRY_COUNT && Content(b) == TablePayload(b.table)
      ensures b.Header? ==>
                && LegibleHeader(b.header) && HeaderKind(b.header) == KindOf(b) && Content(b) == HeaderContent(b.header)
                && (b.header.Hdlr? ==> s.parent == MDIA) && (b.header.MetaHdlr? ==> s.parent == META)
                && Visit(b, v, s) == VisitHeader(b.header, v, s)
    {
      hide AllBytes, TablePayload, BoxBytes, HeaderContent, VisitHeader, VisitAll;
    }

    lemma StillFollows(seen: Seen, v: Found)
      requires Agrees(seen, v)
      ensures Follows(true, seen, Some(v))
    {
    }

    lemma TableSeen(t: Table, before: Seen, after: Seen, v: Found, s: Spot, ok: bool)
      requires Agrees(before, v) && after == before.(tracks := after.tracks) && (s.cur.Some? ==> s.cur.value < |before.tracks|)
      requires s.cur.None? || Defined(before.tracks[s.cur.value], Kind(t)) ==> !ok
      requires s.cur.Some? && !Defined(before.tracks[s.cur.value], Kind(t)) ==>
                 ok && after.tracks == before.tracks[s.cur.value := Store(before.tracks[s.cur.value], t)]
      ensures Follows(ok, after, Visit(Table(t), v, s))
    {
      hide Kind, Defined, Store;
    }

    /** A box of boxes, or one that is stepped over. */
    method ReadParent(kind: u32, s: Spot, level: nat, max: nat, ghost good: bool, ghost box: Box, ghost v: Found)
      returns (r: WalkResult)
      requires Sound(seen) && Within(s) && (good ==> ContentIs(box, kind, s.parent, max, v) && !box.Table? && !box.Header?)
      modifies file`pos, `seen, `extents, `strayed
      ensures old(file.pos) <= file.pos && |old(seen.tracks)| <= |seen.tracks| && Sound(seen) && (old(strayed) ==> strayed)
      ensures r.Consumed? ==> r.n <= max && (!strayed ==> file.pos <= old(file.pos) + r.n)
      ensures !strayed ==> Inside(old(extents), extents, old(file.pos), old(file.pos) + max)
      ensures good ==> strayed == old(strayed) && (r.Consumed? ==> file.pos == old(file.pos) + r.n)
      ensures good ==> Follows(r.Consumed?, seen, Visit(box, v, s))
      decreases max, 3
    {
      hide AllBytes, BoxBytes, Visit, VisitAll, Inside, ShortSets, WellPlaced, Legible, Agrees, Follows, Content, AllLegible, AllPlaced;
      InsideSelf(extents, file.pos, file.pos + max);
      if good { ParentOfKind(box, s, v); }
      ghost var cs := if box.Container? || box.Full? then box.children else [];
      if kind == TRAK {
        NewTrackSeen(seen, v);
        seen := seen.(tracks := seen.tracks + [NO_TABLES], descs := seen.descs + [NO_DESC]);
        r := ReadChildren(Spot(TRAK, s.parent, Some(|seen.tracks| - 1)), level + 1, max, good, cs, NewTrack(v));
      } else if IsContainer(kind) || (kind == META && (s.parent == MOOV || s.parent == TRAK)) {
        r := ReadChildren(Inner(s, kind), level + 1, max, good, cs, v);
      } else if kind == META && s.parent == UDTA {
        r := ReadFullBox(kind, s, level, max, good, cs, v);
      } else if kind == ILST {
        r := ReadList(s, level, max, good, cs, v);
      } else if s.parent == ILST && Plain(kind) {
        r := ReadChildren(Inner(s, kind), level + 1, max, good, cs, v);
      } else {
        r := Consumed(0);
        if good { StillFollows(seen, v); }
      }
    }

    /** What the readers of boxes of boxes need to know of a tree. */
    lemma ParentOfKind(b: Box, s: Spot, v: Found)
      requires Legible(b) && WellPlaced(s.parent, b) && !b.Table? && !b.Header?
      ensures b.Opaque? || b.Large? ==> !IsSpecial(KindOf(b)) && s.parent != ILST && Visit(b, v, s) == Some(v)
      ensures b.Container? || b.Full? ==> AllLegible(b.children) && AllPlaced(KindOf(b), b.children)
      ensures b.Full? ==> b.kind == META && s.parent == UDTA
      ensures b.Full? ==> Content(b) == BE32(0) + AllBytes(b.children) && Visit(b, v, s) == VisitAll(b.children, v, Inner(s, META))
      ensures b.Container? ==>
                && Content(b) == AllBytes(b.children) && (b.kind == META ==> s.parent == MOOV || s.parent == TRAK)
                && (b.kind == ILST ==> b.children != [])
                && (IsContainer(b.kind) || b.kind == META || b.kind == ILST || (s.parent == ILST && Plain(b.kind)))
                && Visit(b, v, s) == if b.kind == TRAK then VisitAll(b.children, NewTrack(v), Spot(TRAK, s.parent, Some(|v.tracks|)))
                                     else VisitAll(b.children, if b.kind == ILST && s.above == UDTA then NoTags(v) else v, Inner(s, b.kind))
    {
      hide AllBytes, TablePayload, BoxBytes, HeaderContent, VisitHeader, VisitAll, AllLegible, AllPlaced;
    }

    lemma NewTrackSeen(seen: Seen, v: Found)
      requires Sound(seen)
      ensures var after := seen.(tracks := seen.tracks + [NO_TABLES], descs := seen.descs + [NO_DESC]);
              Sound(after) && (Agrees(seen, v) ==> Agrees(after, NewTrack(v)) && |seen.tracks| == |v.tracks|)
    {
    }

    /** The same after version and flags. */
    method ReadFullBox(kind: u32, s: Spot, level: nat, max: nat, ghost good: bool, ghost cs: seq<Box>, ghost v: Found)
      returns (r: WalkResult)
      requires Sound(seen) && Within(s)
      requires good ==> AllLegible(cs) && AllPlaced(kind, cs) && Agrees(seen, v)
      requires good ==> file.Next(BE32(0) + AllBytes(cs)) && max == 4 + |AllBytes(cs)|
      modifies file`pos, `seen, `extents, `strayed
      ensures old(file.pos) <= file.pos && |old(seen.tracks)| <= |seen.tracks| && Sound(seen) && (old(strayed) ==> strayed)
      ensures r.Consumed? ==> r.n <= max && (!strayed ==> file.pos <= old(file.pos) + r.n)
      ensures !strayed ==> Inside(old(extents), extents, old(file.pos), old(file.pos) + max)
      ensures good ==> strayed == old(strayed) && (r.Consumed? ==> file.pos == old(file.pos) + r.n)
      ensures good ==> Follows(r.Consumed?, seen, VisitAll(cs, v, Inner(s, kind)))
      decreases max, 2
    {
      hide AllBytes, VisitAll, Inside, ShortSets, Agrees, Follows, Legible, Bounded, AllPlaced, BE32;
      InsideSelf(extents, file.pos, file.pos + max);
      if max < 4 { return Failed(Einval); }
      ghost var rest := if good then AllBytes(cs) else [];
      var version := Take32(file, good, 0, rest);
      if version.None? { return Failed(Eio); }
      r := ReadChildren(Inner(s, kind), level + 1, max - 4, good, cs, v);
      if !strayed {
        InsideTrans(old(extents), old(extents), extents, old(file.pos), old(file.pos) + max, old(file.pos) + 4, old(file.pos) + max);
      }
      if r.Consumed? { r := Consumed(r.n + 4); }
    }

    /** A list of metadata; the tags of a list in a udta box are counted, and replace the tags there were. */
    method ReadList(s: Spot, level: nat, max: nat, ghost good: bool, ghost cs: seq<Box>, ghost v: Found) returns (r: WalkResult)
      requires Sound(seen) && Within(s)
      requires good ==> ChildrenAre(cs, ILST, max, v) && cs != []
      modifies file`pos, `seen, `extents, `strayed
      ensures old(file.pos) <= file.pos && |old(seen.tracks)| <= |seen.tracks| && Sound(seen) && (old(strayed) ==> strayed)
      ensures r.Consumed? ==> r.n <= max && (!strayed ==> file.pos <= old(file.pos) + r.n)
      ensures !strayed ==> Inside(old(extents), extents, old(file.pos), old(file.pos) + max)
      ensures good ==> strayed == old(strayed) && (r.Consumed? ==> file.pos == old(file.pos) + r.n)
      ensures good ==> Follows(r.Consumed?, seen, VisitAll(cs, if s.above == UDTA then NoTags(v) else v, Inner(s, ILST)))
      decreases max, 2
    {
      hide AllBytes, VisitAll, Inside, ShortSets, Follows, AllLegible, AllPlaced;
      InsideSelf(extents, file.pos, file.pos + max);
      if s.above == UDTA {
        var failed := CountEntries(max, good, cs);
        if failed.Some? { return Failed(failed.value); }
        seen := seen.(notes := seen.notes.(tags := []));
      }
      r := ReadChildren(Inner(s, ILST), level + 1, max, good, cs, if s.above == UDTA then NoTags(v) else v);
    }

    /** All the boxes of a parent: bounded by the parent's budget, whatever the bytes say. */
    method ReadChildren(s: Spot, level: nat, max: nat, ghost good: bool, ghost boxes: seq<Box>, ghost v: Found) returns (r: WalkResult)
      requires Sound(seen) && Within(s) && (good ==> ChildrenAre(boxes, s.parent, max, v))
      modifies file`pos, `seen, `extents, `strayed
      ensures old(file.pos) <= file.pos && |old(seen.tracks)| <= |seen.tracks| && Sound(seen) && (old(strayed) ==> strayed)
      ensures r.Consumed? ==> r.n <= max && (!strayed ==> file.pos <= old(file.pos) + r.n)
      ensures !strayed ==> Inside(old(extents), extents, old(file.pos), old(file.pos) + max)
      ensures good && (level == 0 ==> boxes != [] && StartsWithFtyp(boxes)) ==>
                && strayed == old(strayed) && (r.Consumed? ==> file.pos == old(file.pos) + r.n)
                && Follows(r.Consumed?, seen, VisitAll(boxes, v, s))
      decreases max, 1
    {
      hide Progress, ChildrenAre, AllBytes, BoxBytes, VisitAll, Visit, Legible, Inside, Sound, Agrees, Follows, AllPlaced, WellPlaced;
      var start := file.pos;
      var read: nat, lastBox, first := 0, false, true;
      ghost var k, now := 0, v;
      ghost var sound := good && (level == 0 ==> StartsWithFtyp(boxes));
      if good { WalkStarts(boxes, max, s, v); }
      InsideSelf(extents, start, start + max);
      while file.pos < |file.bytes| && !lastBox && read + 8 < max
        invariant start == old(file.pos) <= file.pos && read <= max && (!strayed ==> file.pos <= start + read)
        invariant |old(seen.tracks)| <= |seen.tracks| && Sound(seen) && (old(strayed) ==> strayed)
        invariant !strayed ==> Inside(old(extents), extents, start, start + max)
        invariant sound ==> strayed == old(strayed) && file.pos == start + read
        invariant sound ==> Progress(boxes, s, start, v, k, read, file.pos, now) && Agrees(seen, now) && (first <==> k == 0) && !lastBox
        decreases max - read
      {
        if sound {
          NextBox(boxes, s, start, v, k, read, file.pos, now);
        }
        ghost var entered, at, box := extents, file.pos, if sound then boxes[k] else Opaque(FREE, []);
        var step := ReadBox(s, level, first, max - read, sound, box, now);
        if !strayed { InsideTrans(old(extents), entered, extents, start, start + max, at, at + (max - read)); }
        if step.Stop? {
          if sound { WalkStops(boxes, s, v, k, now, seen); }
          return Failed(step.error);
        }
        if step.Truncated? { return Consumed(max); }
        if sound {
          WalkGoesOn(boxes, s, v, k, now, seen);
          now := Visit(box, now, s).value;
        }
        read := read + step.extent;
        lastBox, first := step.last, false;
        k := k + 1;
      }
      if sound { AllDone(boxes, s, start, v, k, read, file.pos, now, seen); }
      return Consumed(read);
    }

    /** One box: header, checks, content, and the rest of it skipped; `max` bytes are left in the parent. */
    method ReadBox(s: Spot, level: nat, first: bool, max: nat, ghost sound: bool, ghost box: Box, ghost v: Found) returns (step: Step)
      requires 8 < max && Sound(seen) && Within(s)
      requires sound ==>
        && Legible(box) && WellPlaced(s.parent, box) && file.Next(BoxBytes(box)) && |BoxBytes(box)| <= max
        && Agrees(seen, v) && (level == 0 && first ==> KindOf(box) == FTYP)
      modifies file`pos, `seen, `extents, `strayed
      ensures old(file.pos) <= file.pos && |old(seen.tracks)| <= |seen.tracks| && Sound(seen) && (old(strayed) ==> strayed)
      ensures step.Advance? ==> 8 <= step.extent <= max && (!strayed ==> file.pos <= old(file.pos) + step.extent)
      ensures step.Truncated? ==> !strayed ==> file.pos <= old(file.pos) + max
      ensures !strayed ==> Inside(old(extents), extents, old(file.pos), old(file.pos) + max)
      ensures sound ==> strayed == old(strayed)
      ensures sound && !step.Stop? ==> step == Advance(|BoxBytes(box)|, false) && file.pos == old(file.pos) + |BoxBytes(box)|
      ensures sound ==> Follows(!step.Stop?, seen, Visit(box, v, s))
      decreases max, 0
    {
      hide BoxBytes, Visit, Inside, Sound, Agrees, Follows, Legible, WellPlaced;
      var boxStart := file.pos;
      InsideSelf(extents, file.pos, file.pos + max);
      var header := ReadHeader(max, sound, box);
      if header.NoHead? { return Stop(header.error); }
      if level == 0 && first && header.kind != FTYP { return Stop(Eproto); }
      var extent := if header.size == 0 then |file.bytes| else header.extent;
      if max < extent { return Truncated; }
      if extent < header.length { return Stop(Eio); }
      InsideOne(extents, (boxStart, boxStart + extent), boxStart, boxStart + max);
      extents := extents + [(boxStart, boxStart + extent)];
      ghost var entered, at := extents, file.pos;
      var content := Consumed(0);
      if extent - header.length <= |file.bytes| {
        content := ReadContent(header.kind, s, level, extent - header.length, sound, box, v);
        if !strayed { InsideTrans(old(extents), entered, extents, boxStart, boxStart + max, at, at + (extent - header.length)); }
        if content.Failed? { return Stop(content.error); }
      }
      file.pos := file.pos + (extent - header.length - content.n);
      return Advance(extent, header.size == 0);
    }

    /** Size and type of a box, and its 64-bit size when the 32-bit one is 1. */
    method ReadHeader(max: nat, ghost sound: bool, ghost box: Box) returns (h: BoxHead)
      requires 8 < max
      requires sound ==> Legible(box) && file.Next(BoxBytes(box)) && |BoxBytes(box)| <= max
      modifies file`pos
      ensures old(file.pos) <= file.pos
      ensures h.Good? ==> file.pos == old(file.pos) + h.length <= old(file.pos) + max && h.length == if h.size == 1 then 16 else 8
      ensures sound ==> h.Good? && h.kind == KindOf(box) && h.extent == |BoxBytes(box)| && h.size != 0
      ensures sound ==> h.length == HeaderLength(box) && file.Next(Content(box)) && |BoxBytes(box)| == h.length + |Content(box)|
    {
      hide BoxBytes, FromBE32, Content, Legible, KindOf, Signed;
      ghost var at := file.pos;
      var first := ReadSizeAndKind(sound, box);
      if first.None? { return NoHead(Eio); }
      var size, kind := first.value.0, first.value.1;
      if size != 1 {
        if sound { ContentNext(box, at); }
        return Good(size, kind, 8, size);
      }
      if max < 16 { return NoHead(Einval); }
      var large := ReadLarge(sound, box, at);
      if large.None? { return NoHead(Eio); }
      if sound { ContentNext(box, at); }
      return Good(1, kind, 16, large.value);
    }

    method ReadSizeAndKind(ghost sound: bool, ghost box: Box) returns (r: Option<(u32, u32)>)
      requires sound ==> Legible(box) && file.Next(BoxBytes(box))
      modifies file`pos
      ensures old(file.pos) <= file.pos && (r.Some? ==> file.pos == old(file.pos) + 8)
      ensures sound ==> r.Some? && r.value.0 == (if box.Large? then 1 else |BoxBytes(box)|) && r.value.1 == KindOf(box)
      ensures sound ==> |BoxBytes(box)| >= HeaderLength(box)
    {
      hide BoxBytes, FromBE32, Content, Legible, KindOf;
      if sound { HeaderShape(box, file.pos); }
      var size := file.Read32();
      if size.None? { return None; }
      var kind := file.Read32();
      if kind.None? { return None; }
      return Some((size.value, kind.value));
    }

    /** The size of 64 bits, after the first 8 bytes of a box that starts at `at`. */
    method ReadLarge(ghost sound: bool, ghost box: Box, ghost at: nat) returns (size: Option<int>)
      requires file.pos == at + 8
      requires sound ==> Legible(box) && box.Large?
      requires sound ==> at + |BoxBytes(box)| <= |file.bytes| && file.bytes[at..at + |BoxBytes(box)|] == BoxBytes(box)
      modifies file`pos
      ensures file.pos >= at + 8 && (size.Some? ==> file.pos == at + 16)
      ensures sound ==> size == Some(|BoxBytes(box)|)
    {
      hide BoxBytes, FromBE32, Legible, Signed, Content;
      if sound { HeaderShape(box, at); }
      var hi := file.Read32();
      if hi.None? { return None; }
      var lo := file.Read32();
      if lo.None? { return None; }
      var n: u64 := hi.value * TWO32 + lo.value;
      return Some(Signed(n));
    }

    /** The content follows the header. */
    lemma ContentNext(box: Box, at: nat)
      requires Legible(box) && file.pos == at + HeaderLength(box)
      requires at + |BoxBytes(box)| <= |file.bytes| && file.bytes[at..at + |BoxBytes(box)|] == BoxBytes(box)
      ensures file.Next(Content(box)) && |BoxBytes(box)| == HeaderLength(box) + |Content(box)|
    {
      hide FromBE32, BoxBytes, Content;
      HeaderShape(box, at);
    }

    lemma HeaderShape(box: Box, at: nat)
      requires Legible(box)
      requires at + |BoxBytes(box)| <= |file.bytes| && file.bytes[at..at + |BoxBytes(box)|] == BoxBytes(box)
      ensures at + HeaderLength(box) <= |file.bytes|
      ensures FromBE32(file.bytes[at..at + 4]) == if box.Large? then 1 else |BoxBytes(box)|
      ensures FromBE32(file.bytes[at + 4..at + 8]) == KindOf(box)
      ensures box.Large? ==>
                FromBE32(file.bytes[at + 8..at + 12]) * TWO32 + FromBE32(file.bytes[at + 12..at + 16]) == |BoxBytes(box)| < TWO63
      ensures var h := HeaderLength(box);
              && |BoxBytes(box)| == h + |Content(box)|
              && file.bytes[at + h..at + h + |Content(box)|] == Content(box)
    {
      hide FromBE32, BoxBytes, Content;
      BoxShape(box);
      file.Slice(at, BoxBytes(box), HeaderLength(box), |BoxBytes(box)|);
      file.Slice(at, BoxBytes(box), 0, 4);
      file.Slice(at, BoxBytes(box), 4, 8);
      if box.Large? {
        file.Slice(at, BoxBytes(box), 8, 12);
        file.Slice(at, BoxBytes(box), 12, 16);
      }
    }

    /** The walk, now at `at` and knowing `now`, has read the first `k` boxes. */
    ghost predicate Progress(boxes: seq<Box>, s: Spot, start: nat, v: Found, k: nat, read: nat, at: nat, now: Found)
    {
      && k <= |boxes| && AllLegible(boxes)
      && start + |AllBytes(boxes)| <= |file.bytes| && file.bytes[start..start + |AllBytes(boxes)|] == AllBytes(boxes)
      && AllBounded(boxes[..k]) && read == |AllBytes(boxes[..k])| && at == start + read
      && VisitAll(boxes[..k], v, s) == Some(now) && Matched(v)
    }

    lemma WalkStarts(boxes: seq<Box>, max: nat, s: Spot, v: Found)
      requires ChildrenAre(boxes, s.parent, max, v)
      ensures max == |AllBytes(boxes)| && AllPlaced(s.parent, boxes) && Agrees(seen, v)
      ensures Progress(boxes, s, file.pos, v, 0, 0, file.pos, v)
    {
      assert boxes[..0] == [];
    }

    /** The next box is there, and after it the walk goes on. */
    lemma NextBox(boxes: seq<Box>, s: Spot, start: nat, v: Found, k: nat, read: nat, at: nat, now: Found)
      requires Progress(boxes, s, start, v, k, read, at, now) && AllPlaced(s.parent, boxes)
      requires read < |AllBytes(boxes)|
      ensures k < |boxes| && Legible(boxes[k]) && WellPlaced(s.parent, boxes[k])
      ensures var n := |BoxBytes(boxes[k])|;
              && read + n <= |AllBytes(boxes)| && file.bytes[at..at + n] == BoxBytes(boxes[k])
              && (Visit(boxes[k], now, s).Some? ==>
                    Progress(boxes, s, start, v, k + 1, read + n, at + n, Visit(boxes[k], now, s).value))
      ensures VisitAll(boxes[..k], v, s) == Some(now) && Matched(v)
      ensures k == 0 && StartsWithFtyp(boxes) ==> KindOf(boxes[k]) == FTYP
    {
      hide BoxBytes, Legible, Visit, VisitAll, Bounded, AllBytes;
      assert boxes[..|boxes|] == boxes;
      AllBytesNext(boxes, k);
      file.Slice(start, AllBytes(boxes), read, read + |BoxBytes(boxes[k])|);
      VisitNext(boxes, k, v, s, now);
    }

    /** A box at which the walk fails. */
    lemma WalkStops(boxes: seq<Box>, s: Spot, v: Found, k: nat, now: Found, seen: Seen)
      requires k < |boxes| && VisitAll(boxes[..k], v, s) == Some(now) && Matched(v)
      requires Follows(false, seen, Visit(boxes[k], now, s))
      ensures Follows(false, seen, VisitAll(boxes, v, s))
    {
      hide Visit, VisitAll, Sure;
      VisitNext(boxes, k, v, s, now);
      SureBeforeAll(boxes[..k], v, s);
      if Visit(boxes[k], now, s).Some? && VisitAll(boxes, v, s).Some? {
        SureBefore(boxes[k], now, s);
        SureBeforeAll(boxes[k + 1..], Visit(boxes[k], now, s).value, s);
      }
    }

    /** A box after which it goes on. */
    lemma WalkGoesOn(boxes: seq<Box>, s: Spot, v: Found, k: nat, now: Found, seen: Seen)
      requires k < |boxes| && Follows(true, seen, Visit(boxes[k], now, s))
      ensures Visit(boxes[k], now, s).Some? && Agrees(seen, Visit(boxes[k], now, s).value)
    {
    }

    /** The loop may stop before a last box of 8 bytes, which holds nothing. */
    lemma AllDone(boxes: seq<Box>, s: Spot, start: nat, v: Found, k: nat, read: nat, at: nat, now: Found, seen: Seen)
      requires Progress(boxes, s, start, v, k, read, at, now) && Agrees(seen, now)
      requires read + 8 >= |AllBytes(boxes)|
      ensures Follows(true, seen, VisitAll(boxes, v, s)) && at == start + read
    {
      hide Agrees;
      if k == |boxes| {
        assert boxes[..k] == boxes;
      } else {
        AllBytesNext(boxes, k);
        BoxShape(boxes[k]);
        assert |BoxBytes(boxes[k])| == 8 && |AllBytes(boxes[k + 1..])| == 0;
        if k + 1 < |boxes| { BoxShape(boxes[k + 1..][0]); }
        assert boxes[..k + 1] == boxes;
        VisitNext(boxes, k, v, s, now);
        EmptyBoxIsInert(boxes[k], now, s);
      }
    }

    lemma EmptyBoxIsInert(b: Box, v: Found, s: Spot)
      requires Legible(b) && |BoxBytes(b)| == 8
      ensures Visit(b, v, s) == Some(v)
    {
      hide BE32, WordBytes, VisitHeader;
      BoxShape(b);
      if b.Container? && b.children != [] {
        BoxShape(b.children[0]);
      }
      assert !b.Full?;
      if b.Header? { HeaderLong(b.header); }
    }

    lemma HeaderLong(h: HeaderBox)
      requires LegibleHeader(h)
      ensures |HeaderContent(h)| > 0
    {
      hide MvhdWords, TkhdWords, TrefWords, MdhdWords, HdlrWords, EntryOf, HandlerName, Describable;
      if h.Tref? { TrefLength(h); }
      if h.Stsd? { assert |WordBytes([0, 1])| == 8; }
    }
  }
}
