/**
 Where the fields of the boxes stand in their bytes, counted from the start of their
 content (sections 4.3, 8.2.2, 8.3.2, 8.4.2, 8.4.3, 8.5.2, 8.6, 8.7 and 12 of ISO/IEC
 14496-12): a reference for the boxes of the muxer that names none of the functions
 they are put together with.
 */
module BoxLayout {
  import opened Bytes
  import opened Wrappers
  import opened TimeTable
  import opened ChunkMap
  import opened BoxTree
  import opened ConfigBytes
  import opened HeaderBoxes
  import opened Movie
  import opened MovieTexts
  import C = ChapterReader
  import D = ConfigReader
  import H = HeaderReader
  import L = FileLayout
  import MuxFile
  import R = JournalReplay
  import W = BoxWalk
  import X = TextReader
  import J = JournalFormat
  import M = Metadata

  function At16(b: seq<byte>, i: nat): u16
    requires i + 2 <= |b|
  {
    FromBE16(b[i..i + 2])
  }

  function At32(b: seq<byte>, i: nat): u32
    requires i + 4 <= |b|
  {
    FromBE32(b[i..i + 4])
  }

  function At64(b: seq<byte>, i: nat): u64
    requires i + 8 <= |b|
  {
    FromBE64(b[i..i + 8])
  }

  /** Four characters. */
  predicate Spells(b: seq<byte>, i: nat, s: string)
  {
    i + 4 <= |b| && b[i..i + 4] == M.Ascii(s)
  }

  predicate AllZero(b: seq<byte>, from: nat, to: nat)
    requires from <= to <= |b|
  {
    forall i :: from <= i < to ==> b[i] == 0
  }

  // ---------- codes ----------

  /** A code of four characters. */
  predicate IsCode(code: u32, s: string)
  {
    BE32(code) == M.Ascii(s)
  }

  lemma CodeSpells(code: u32, s: string)
    requires |s| == 4 && M.Narrow(s)
    requires code == s[0] as int * 0x100_0000 + s[1] as int * 0x1_0000 + s[2] as int * 0x100 + s[3] as int
    ensures IsCode(code, s)
  {
    var hi: u16, lo: u16 := code / 0x1_0000, code % 0x1_0000;
    assert hi == s[0] as int * 0x100 + s[1] as int && lo == s[2] as int * 0x100 + s[3] as int;
    assert BE16(hi) == [s[0] as int, s[1] as int] && BE16(lo) == [s[2] as int, s[3] as int];
    assert M.Ascii(s) == [s[0] as int, s[1] as int, s[2] as int, s[3] as int];
  }

  /** The boxes of the top level and those that hold others. */
  lemma ContainerCodes()
    ensures IsCode(FTYP, "ftyp") && IsCode(FREE, "free") && IsCode(MDAT, "mdat") && IsCode(MOOV, "moov")
    ensures IsCode(TRAK, "trak") && IsCode(MDIA, "mdia") && IsCode(MINF, "minf") && IsCode(DINF, "dinf") && IsCode(STBL, "stbl")
    ensures IsCode(UDTA, "udta") && IsCode(META, "meta") && IsCode(ILST, "ilst") && IsCode(UUID, "uuid")
  {
    hide IsCode;
    CodeSpells(FTYP, "ftyp");
    CodeSpells(FREE, "free");
    CodeSpells(MDAT, "mdat");
    CodeSpells(MOOV, "moov");
    CodeSpells(TRAK, "trak");
    CodeSpells(MDIA, "mdia");
    CodeSpells(MINF, "minf");
    CodeSpells(DINF, "dinf");
    CodeSpells(STBL, "stbl");
    CodeSpells(UDTA, "udta");
    CodeSpells(META, "meta");
    CodeSpells(ILST, "ilst");
    CodeSpells(UUID, "uuid");
  }

  lemma TableCodes()
    ensures IsCode(STTS, "stts") && IsCode(STSS, "stss") && IsCode(STSZ, "stsz") && IsCode(STSC, "stsc") && IsCode(STCO, "stco") && IsCode(CO64, "co64")
    ensures IsCode(MVHD, "mvhd") && IsCode(TKHD, "tkhd") && IsCode(TREF, "tref") && IsCode(MDHD, "mdhd") && IsCode(HDLR, "hdlr") && IsCode(STSD, "stsd")
  {
    hide IsCode;
    CodeSpells(STTS, "stts");
    CodeSpells(STSS, "stss");
    CodeSpells(STSZ, "stsz");
    CodeSpells(STSC, "stsc");
    CodeSpells(STCO, "stco");
    CodeSpells(CO64, "co64");
    CodeSpells(MVHD, "mvhd");
    CodeSpells(TKHD, "tkhd");
    CodeSpells(TREF, "tref");
    CodeSpells(MDHD, "mdhd");
    CodeSpells(HDLR, "hdlr");
    CodeSpells(STSD, "stsd");
  }

  /** The headers of the media, where the data is, and the metadata. */
  lemma MediaCodes()
    ensures IsCode(VMHD, "vmhd") && IsCode(SMHD, "smhd") && IsCode(HMHD, "hmhd") && IsCode(NMHD, "nmhd") && IsCode(GMHD, "gmhd") && IsCode(GMIN, "gmin")
    ensures IsCode(DREF, "dref") && IsCode(URL, "url ") && IsCode(KEYS, "keys") && IsCode(DATA, "data")
  {
    hide IsCode;
    CodeSpells(VMHD, "vmhd");
    CodeSpells(SMHD, "smhd");
    CodeSpells(HMHD, "hmhd");
    CodeSpells(NMHD, "nmhd");
    CodeSpells(GMHD, "gmhd");
    CodeSpells(GMIN, "gmin");
    CodeSpells(DREF, "dref");
    CodeSpells(URL, "url ");
    CodeSpells(KEYS, "keys");
    CodeSpells(DATA, "data");
  }

  /** References, handlers, sample descriptions, brands and tags. */
  lemma OtherCodes()
    ensures IsCode(CDSC, "cdsc") && IsCode(CHAP, "chap") && IsCode(MDTA, "mdta") && IsCode(MDIR, "mdir") && IsCode(APPL, "appl") && IsCode(MHLR, "mhlr")
    ensures IsCode(J.AVC1, "avc1") && IsCode(J.HVC1, "hvc1") && IsCode(MP4A, "mp4a") && IsCode(METT, "mett") && IsCode(TEXT, "text")
    ensures IsCode(AVCC, "avcC") && IsCode(HVCC, "hvcC") && IsCode(ESDS, "esds") && IsCode(X.COVR, "covr")
    ensures BE32(LOCATION) == M.Symbol("xyz")
  {
    hide IsCode, BE32;
    CodeSpells(CDSC, "cdsc");
    CodeSpells(CHAP, "chap");
    CodeSpells(MDTA, "mdta");
    CodeSpells(MDIR, "mdir");
    CodeSpells(APPL, "appl");
    CodeSpells(MHLR, "mhlr");
    CodeSpells(J.AVC1, "avc1");
    CodeSpells(J.HVC1, "hvc1");
    CodeSpells(MP4A, "mp4a");
    CodeSpells(METT, "mett");
    CodeSpells(TEXT, "text");
    CodeSpells(AVCC, "avcC");
    CodeSpells(HVCC, "hvcC");
    CodeSpells(ESDS, "esds");
    CodeSpells(X.COVR, "covr");
    M.CodeOf(LOCATION, "xyz");
  }

  /** The records of the journal have the names of the boxes they stand for. */
  lemma JournalCodes()
    ensures J.TRAK == TRAK && J.STSD == STSD && J.STTS == STTS && J.STSS == STSS && J.STSC == STSC && J.STSZ == STSZ && J.STCO == STCO
    ensures J.CO64 == CO64 && J.META == META && J.COVR == X.COVR
    ensures J.TypeFromCode(J.TypeCode(J.Video)) == Some(J.Video) && J.TypeCode(J.Video) == 1
    ensures J.TypeCode(J.Audio) == 2 && J.TypeCode(J.Timed) == 4 && J.TypeCode(J.Chapters) == 6
    ensures forall c: u32 :: J.TypeFromCode(c).Some? ==> J.TypeCode(J.TypeFromCode(c).value) == c
    ensures forall kind: J.TrackType :: J.TypeFromCode(J.TypeCode(kind)) == Some(kind)
  {
  }

  /** Times are counted from the start of 1904: 66 years with 17 leap days before the epoch of Unix. */
  lemma EpochOf1904()
    ensures J.EPOCH_OFFSET == (66 * 365 + 17) * 24 * 60 * 60
  {
  }

  // ---------- words ----------

  /** The fields of a box whose content starts with words. */
  lemma WordThere(w: seq<u32>, rest: seq<byte>, i: nat)
    requires i < |w|
    ensures At32(WordBytes(w) + rest, 4 * i) == w[i]
  {
    hide BE32, FromBE32, WordBytes;
    WordAt(w, i);
    var b := WordBytes(w) + rest;
    assert b[4 * i..4 * i + 4] == WordBytes(w)[4 * i..4 * i + 4];
  }

  /** A slice of twice as many bytes, cut in the middle. */
  lemma Cut(b: seq<byte>, i: nat, n: nat)
    requires i + 2 * n <= |b|
    ensures b[i..i + 2 * n][..n] == b[i..i + n] && b[i..i + 2 * n][n..] == b[i + n..i + 2 * n]
  {
  }

  lemma LongWords(b: seq<byte>, i: nat)
    requires i + 8 <= |b|
    ensures At64(b, i) == At32(b, i) * TWO32 + At32(b, i + 4)
  {
    hide FromBE32;
    Cut(b, i, 4);
  }

  lemma LongThere(w: seq<u32>, rest: seq<byte>, i: nat)
    requires i + 1 < |w|
    ensures At64(WordBytes(w) + rest, 4 * i) == w[i] * TWO32 + w[i + 1]
  {
    hide At32, At64, WordBytes;
    WordThere(w, rest, i);
    WordThere(w, rest, i + 1);
    LongWords(WordBytes(w) + rest, 4 * i);
  }

  /** Two halves of a word. */
  lemma HalvesThere(w: seq<u32>, rest: seq<byte>, i: nat)
    requires i < |w|
    ensures At16(WordBytes(w) + rest, 4 * i) == w[i] / 0x1_0000 && At16(WordBytes(w) + rest, 4 * i + 2) == w[i] % 0x1_0000
  {
    hide At16, At32, WordBytes;
    WordThere(w, rest, i);
    HalfWords(WordBytes(w) + rest, 4 * i);
  }

  lemma HalfWords(b: seq<byte>, i: nat)
    requires i + 4 <= |b|
    ensures At16(b, i) == At32(b, i) / 0x1_0000 && At16(b, i + 2) == At32(b, i) % 0x1_0000
  {
    hide FromBE16;
    Cut(b, i, 2);
    var hi: int, lo: int := At16(b, i), At16(b, i + 2);
    assert At32(b, i) == hi * 0x1_0000 + lo;
  }

  lemma HiLo(x: u64)
    ensures Hi(x) * TWO32 + Lo(x) == x
  {
  }

  // ---------- the headers of the movie and its tracks ----------

  /** No rotation and no scaling. */
  predicate UnityMatrix(b: seq<byte>, at: nat)
    requires at + 36 <= |b|
  {
    ThreeAt(b, at, 0x1_0000, 0, 0) && ThreeAt(b, at + 12, 0, 0x1_0000, 0) && ThreeAt(b, at + 24, 0, 0, 0x4000_0000)
  }

  predicate ThreeAt(b: seq<byte>, at: nat, x: u32, y: u32, z: u32)
    requires at + 12 <= |b|
  {
    At32(b, at) == x && At32(b, at + 4) == y && At32(b, at + 8) == z
  }

  /** Nine words of a box are the matrix. */
  lemma MatrixThere(w: seq<u32>, rest: seq<byte>, i: nat)
    requires i + 9 <= |w| && w[i..i + 9] == MATRIX
    ensures UnityMatrix(WordBytes(w) + rest, 4 * i)
  {
    hide ThreeAt, WordBytes;
    MatrixWords(w, i);
    ThreeThere(w, rest, i);
    ThreeThere(w, rest, i + 3);
    ThreeThere(w, rest, i + 6);
  }

  lemma MatrixWords(w: seq<u32>, i: nat)
    requires i + 9 <= |w| && w[i..i + 9] == MATRIX
    ensures w[i] == w[i + 4] == 0x1_0000 && w[i + 8] == 0x4000_0000
    ensures w[i + 1] == w[i + 2] == w[i + 3] == w[i + 5] == w[i + 6] == w[i + 7] == 0
  {
    var m := w[i..i + 9];
    assert m[0] == w[i] && m[1] == w[i + 1] && m[2] == w[i + 2] && m[3] == w[i + 3] && m[4] == w[i + 4];
    assert m[5] == w[i + 5] && m[6] == w[i + 6] && m[7] == w[i + 7] && m[8] == w[i + 8];
  }

  lemma ThreeThere(w: seq<u32>, rest: seq<byte>, i: nat)
    requires i + 3 <= |w|
    ensures ThreeAt(WordBytes(w) + rest, 4 * i, w[i], w[i + 1], w[i + 2])
  {
    hide At32, WordBytes;
    WordThere(w, rest, i);
    WordThere(w, rest, i + 1);
    WordThere(w, rest, i + 2);
  }

  /** Movie header, in version 1. */
  lemma MvhdLayout(rows: seq<TrackRow>, timescale: u32, fixed: Fixed)
    ensures var b := HeaderContent(MvhdOf(rows, timescale, fixed));
            && |b| == 112 && At32(b, 0) == 0x0100_0000 && At64(b, 4) == fixed.created && At64(b, 12) == fixed.modified
            && At32(b, 20) == timescale && At64(b, 24) == MovieTicks(rows, 0)
            && At32(b, 32) == 0x1_0000 && At32(b, 36) == 0x0100_0000 && UnityMatrix(b, 48)
            && (|rows| + 1 < TWO32 ==> At32(b, 108) == |rows| + 1)
  {
    hide At32, At64, WordBytes, MovieTicks, UnityMatrix, Hi, Lo, MvhdWords;
    var duration: u64 := MovieTicks(rows, 0);
    MvhdWordsAre(fixed.created, fixed.modified, timescale, duration, |rows|);
    var w := FixedWords(MvhdOf(rows, timescale, fixed));
    HiLo(fixed.created);
    HiLo(fixed.modified);
    HiLo(duration);
    WordThere(w, [], 0);
    LongThere(w, [], 1);
    LongThere(w, [], 3);
    WordThere(w, [], 5);
    LongThere(w, [], 6);
    WordThere(w, [], 8);
    WordThere(w, [], 9);
    MatrixThere(w, [], 12);
    WordThere(w, [], 27);
  }

  lemma MvhdWordsAre(created: u64, modified: u64, timescale: u32, duration: u64, tracks: nat)
    ensures var w := MvhdWords(created, modified, timescale, duration, tracks);
            && w[0] == 0x0100_0000 && w[1] == Hi(created) && w[2] == Lo(created) && w[3] == Hi(modified) && w[4] == Lo(modified)
            && w[5] == timescale && w[6] == Hi(duration) && w[7] == Lo(duration) && w[8] == 0x1_0000 && w[9] == 0x0100_0000
            && w[12..21] == MATRIX && w[27] == (tracks + 1) % TWO32
  {
    var w := MvhdWords(created, modified, timescale, duration, tracks);
    assert w[12..21] == MATRIX;
  }

  /** Track header, in version 1: a video track has its size in whole pixels, an audio track its volume. */
  lemma TkhdLayout(r: TrackRow)
    ensures var b, i := HeaderContent(TkhdOf(r)), r.state.info;
            && |b| == 96 && At32(b, 0) == 0x0100_0000 + i.flags % 8 && At64(b, 4) == i.created && At64(b, 12) == i.modified
            && At32(b, 20) == r.id && At64(b, 28) == r.durationMoov && At32(b, 48) == (if i.kind.Audio? then 0x0100_0000 else 0)
            && UnityMatrix(b, 52)
            && (i.kind.Video? && (r.state.config.Avc? || r.state.config.Hevc?) ==>
                  && At32(b, 88) == r.state.config.width % 0x1_0000 * 0x1_0000
                  && At32(b, 92) == r.state.config.height % 0x1_0000 * 0x1_0000)
            && (!i.kind.Video? ==> At32(b, 88) == At32(b, 92) == 0)
  {
    hide At32, At64, WordBytes, UnityMatrix, Hi, Lo, TkhdWords;
    var i, size := r.state.info, SizeOf(r.state);
    TkhdWordsAre(i.flags, i.created, i.modified, r.id, r.durationMoov, i.kind.Audio?, size.0, size.1);
    var w := FixedWords(TkhdOf(r));
    HiLo(i.created);
    HiLo(i.modified);
    HiLo(r.durationMoov);
    WordThere(w, [], 0);
    LongThere(w, [], 1);
    LongThere(w, [], 3);
    WordThere(w, [], 5);
    LongThere(w, [], 7);
    WordThere(w, [], 12);
    MatrixThere(w, [], 13);
    WordThere(w, [], 22);
    WordThere(w, [], 23);
  }

  lemma TkhdWordsAre(flags: u32, created: u64, modified: u64, id: u32, duration: u64, audio: bool, width: u32, height: u32)
    ensures var w := TkhdWords(flags, created, modified, id, duration, audio, width, height);
            && w[0] == 0x0100_0000 + flags % 8 && w[1] == Hi(created) && w[2] == Lo(created) && w[3] == Hi(modified) && w[4] == Lo(modified)
            && w[5] == id && w[7] == Hi(duration) && w[8] == Lo(duration) && w[12] == (if audio then 0x0100_0000 else 0)
            && w[13..22] == MATRIX && w[22] == width % 0x1_0000 * 0x1_0000 && w[23] == height % 0x1_0000 * 0x1_0000
  {
    var w := TkhdWords(flags, created, modified, id, duration, audio, width, height);
    assert w[13..22] == MATRIX;
  }

  /** Media header, in version 1. */
  lemma MdhdLayout(r: TrackRow)
    ensures var b, i := HeaderContent(MdhdOf(r)), r.state.info;
            && |b| == 36 && At32(b, 0) == 0x0100_0000 && At64(b, 4) == i.created && At64(b, 12) == i.modified
            && At32(b, 20) == i.timescale && At64(b, 24) == r.duration && At32(b, 32) == 0
  {
    hide At32, At64, WordBytes, Hi, Lo;
    var i, w := r.state.info, FixedWords(MdhdOf(r));
    HiLo(i.created);
    HiLo(i.modified);
    HiLo(r.duration);
    WordThere(w, [], 0);
    LongThere(w, [], 1);
    LongThere(w, [], 3);
    WordThere(w, [], 5);
    LongThere(w, [], 6);
    WordThere(w, [], 8);
  }

  /** Handler: what kind of media the track has, and the name of the track or, if it has none or a long one, a name for the kind. */
  lemma HdlrLayout(r: TrackRow)
    ensures var b, i := HeaderContent(HdlrOf(r)), r.state.info;
            && |b| > 24 && At32(b, 0) == 0 && At32(b, 4) == 0
            && Spells(b, 8, match i.kind case Video => "vide" case Audio => "soun" case Timed => "meta" case Chapters => "text")
            && At32(b, 12) == At32(b, 16) == At32(b, 20) == 0 && b[|b| - 1] == 0
            && b[24..|b| - 1] == (if 0 < |i.name| < 255 then i.name else
                                  M.Ascii(match i.kind case Video => "VideoHandler" case Audio => "SoundHandler"
                                                       case Timed => "TimedMetadata" case Chapters => "Chapters"))
  {
    hide At32, WordBytes, IsCode, HandlerName;
    var kind, name := r.state.info.kind, r.state.info.name;
    var w, rest := FixedWords(HdlrOf(r)), Variable(HdlrOf(r));
    WordThere(w, rest, 0);
    WordThere(w, rest, 1);
    WordThere(w, rest, 3);
    WordThere(w, rest, 4);
    WordThere(w, rest, 5);
    HandlerThere(w, rest, kind);
    NameThere(kind, name);
    var b := HeaderContent(HdlrOf(r));
    assert b[24..|b| - 1] == HandlerName(kind, name);
  }

  lemma HandlerThere(w: seq<u32>, rest: seq<byte>, kind: J.TrackType)
    requires |w| > 2 && w[2] == HandlerCode(kind)
    ensures Spells(WordBytes(w) + rest, 8, match kind case Video => "vide" case Audio => "soun" case Timed => "meta" case Chapters => "text")
  {
    hide BE32, WordBytes;
    WordAt(w, 2);
    var b := WordBytes(w) + rest;
    assert b[8..12] == WordBytes(w)[8..12];
    CodeSpells(HandlerCode(J.Video), "vide");
    CodeSpells(HandlerCode(J.Audio), "soun");
    CodeSpells(HandlerCode(J.Timed), "meta");
    CodeSpells(HandlerCode(J.Chapters), "text");
  }

  lemma NameThere(kind: J.TrackType, name: seq<byte>)
    ensures HandlerName(kind, name) == if 0 < |name| < 255 then name else
                                       M.Ascii(match kind case Video => "VideoHandler" case Audio => "SoundHandler"
                                                          case Timed => "TimedMetadata" case Chapters => "Chapters")
  {
    SameCharacters("VideoHandler");
    SameCharacters("SoundHandler");
    SameCharacters("TimedMetadata");
    SameCharacters("Chapters");
  }

  lemma SameCharacters(s: string)
    requires M.Narrow(s)
    ensures Characters(s) == M.Ascii(s)
  {
  }

  /** The references of a track: a list of its own size, with its kind. */
  lemma TrefLayout(r: TrackRow)
    requires 0 < |r.refIds| < 1000
    ensures var b := HeaderContent(TrefOf(r));
            && |b| >= 8 + 4 * |r.refIds| && At32(b, 0) == 8 + 4 * |r.refIds|
            && Spells(b, 4, if r.state.info.kind.Timed? then "cdsc" else "chap")
            && forall i :: 0 <= i < |r.refIds| ==> At32(b, 8 + 4 * i) == r.refIds[i]
  {
    hide At32, WordBytes, BE32, TrefWords, IsCode;
    var ids, w := r.refIds, FixedWords(TrefOf(r));
    FirstList(TrefOf(r).reference, ids);
    var b := WordBytes(w) + [];
    WordThere(w, [], 0);
    forall i | 0 <= i < |ids| ensures At32(b, 8 + 4 * i) == ids[i] {
      WordThere(w, [], 2 + i);
    }
    SecondWord(w);
    OtherCodes();
    CodeThere(b, 4, w[1]);
  }

  lemma SecondWord(w: seq<u32>)
    requires |w| > 1
    ensures (WordBytes(w) + [])[4..8] == BE32(w[1])
  {
    hide WordBytes, BE32;
    WordAt(w, 1);
    assert WordBytes(w) + [] == WordBytes(w);
  }

  lemma FirstList(reference: u32, ids: seq<u32>)
    requires 0 < |ids| < 1000
    ensures var w := TrefWords(reference, ids, |ids|);
            |w| >= 2 + |ids| && w[0] == 8 + 4 * |ids| && w[1] == reference && forall i :: 0 <= i < |ids| ==> w[2 + i] == ids[i]
  {
    var n := |ids|;
    var w, more := TrefWords(reference, ids, n), TrefWords(reference, ids, n - 1);
    assert w == [8 + 4 * n, reference] + ids + more;
    assert |w| == 2 + n + |more|;
  }

  // ---------- the tables ----------

  /** Every offset fits 32 bits. */
  predicate AllShort(offsets: seq<u64>)
  {
    forall i :: 0 <= i < |offsets| ==> offsets[i] < TWO32
  }

  /** Version and flags, the count, and the entries, word by word; stsz has a common size of 0 before its count. */
  lemma TableLayout(t: Table)
    requires 0 < Count(t) <= MAX_ENTRY_COUNT
    ensures var b := TableBytes(t);
            match t
            case Stts(es) => |b| == 16 + 8 * |es| && At32(b, 0) == |b| && Spells(b, 4, "stts") && At32(b, 8) == 0 && At32(b, 12) == |es|
            case Stss(es) => |b| == 16 + 4 * |es| && At32(b, 0) == |b| && Spells(b, 4, "stss") && At32(b, 8) == 0 && At32(b, 12) == |es|
            case Stsz(es) => |b| == 20 + 4 * |es| && At32(b, 0) == |b| && Spells(b, 4, "stsz") && At32(b, 8) == At32(b, 12) == 0 && At32(b, 16) == |es|
            case Stsc(es) => |b| == 16 + 12 * |es| && At32(b, 0) == |b| && Spells(b, 4, "stsc") && At32(b, 8) == 0 && At32(b, 12) == |es|
            case Stco(es) =>
              && At32(b, 0) == |b| && At32(b, 8) == 0 && At32(b, 12) == |es|
              && if AllShort(es) then |b| == 16 + 4 * |es| && Spells(b, 4, "stco") else |b| == 16 + 8 * |es| && Spells(b, 4, "co64")
    ensures forall i :: 0 <= i < Count(t) ==> EntryThere(t, i, TableBytes(t))
  {
    hide At32, WordBytes, BE32, EntryWords, IsCode, EntryThere, AllShort, Wide;
    var w := HeaderWords(t) + EntryWords(t);
    if t.Stco? { WideMeans(t.offsets); }
    TableWords(t, w);
    TableCodes();
    var all := [8 + 4 * |w|, Kind(t)] + w;
    WordThere(all, [], 0);
    WordThere(all, [], 2);
    WordThere(all, [], 3);
    if t.Stsz? { WordThere(all, [], 4); }
    WordAt(all, 1);
    assert TableBytes(t) + [] == TableBytes(t);
    CodeThere(TableBytes(t), 4, Kind(t));
    forall i | 0 <= i < Count(t) ensures EntryThere(t, i, TableBytes(t)) {
      EntryIsThere(t, i);
    }
  }

  /** The whole box is words. */
  lemma TableWords(t: Table, w: seq<u32>)
    requires 0 < Count(t) <= MAX_ENTRY_COUNT && w == HeaderWords(t) + EntryWords(t)
    ensures TableBytes(t) == WordBytes([8 + 4 * |w|, Kind(t)] + w)
  {
    hide WordBytes, BE32, EntryWords;
    WordBytesAppend([8 + 4 * |w|, Kind(t)], w);
    WordBytesAppend([8 + 4 * |w|], [Kind(t)]);
    X.OneWord(8 + 4 * |w|);
    X.OneWord(Kind(t));
    assert [8 + 4 * |w|] + [Kind(t)] == [8 + 4 * |w|, Kind(t)];
  }

  lemma CodeThere(b: seq<byte>, i: nat, code: u32)
    requires i + 4 <= |b| && b[i..i + 4] == BE32(code)
    ensures forall s: string :: IsCode(code, s) ==> Spells(b, i, s)
  {
    hide BE32;
  }

  /** Where an entry of a table is, and what it says there. */
  predicate EntryThere(t: Table, i: nat, b: seq<byte>)
    requires i < Count(t)
  {
    match t
    case Stts(es) => 24 + 8 * i <= |b| && At32(b, 16 + 8 * i) == es[i].count && At32(b, 20 + 8 * i) == es[i].delta
    case Stss(es) => 20 + 4 * i <= |b| && At32(b, 16 + 4 * i) == es[i]
    case Stsz(es) => 24 + 4 * i <= |b| && At32(b, 20 + 4 * i) == es[i]
    case Stsc(es) =>
      && 28 + 12 * i <= |b| && At32(b, 16 + 12 * i) == es[i].firstChunk
      && At32(b, 20 + 12 * i) == es[i].samplesPerChunk && At32(b, 24 + 12 * i) == es[i].description
    case Stco(es) =>
      if AllShort(es) then 20 + 4 * i <= |b| && At32(b, 16 + 4 * i) == es[i]
      else 24 + 8 * i <= |b| && At64(b, 16 + 8 * i) == es[i]
  }

  lemma WideMeans(es: seq<u64>)
    ensures Wide(es) <==> !AllShort(es)
  {
  }

  lemma PairAt(es: seq<TtsEntry>, i: nat)
    requires i < |es|
    ensures var w := EntryWords(Stts(es)); 2 * i + 1 < |w| && w[2 * i] == es[i].count && w[2 * i + 1] == es[i].delta
  {
    assert 2 * i / 2 == i && (2 * i + 1) / 2 == i && 2 * i % 2 == 0 && (2 * i + 1) % 2 == 1;
  }

  lemma Thirds(i: nat)
    ensures 3 * i / 3 == i && (3 * i + 1) / 3 == i && (3 * i + 2) / 3 == i
    ensures 3 * i % 3 == 0 && (3 * i + 1) % 3 == 1 && (3 * i + 2) % 3 == 2
  {
  }

  lemma TripleAt(es: seq<StcEntry>, i: nat)
    requires i < |es|
    ensures var w := EntryWords(Stsc(es));
            3 * i + 2 < |w| && w[3 * i] == es[i].firstChunk && w[3 * i + 1] == es[i].samplesPerChunk && w[3 * i + 2] == es[i].description
  {
    hide EntryWords;
    Thirds(i);
    TripleWord(es, 3 * i);
    TripleWord(es, 3 * i + 1);
    TripleWord(es, 3 * i + 2);
  }

  lemma TripleWord(es: seq<StcEntry>, j: nat)
    requires j < 3 * |es|
    ensures var w := EntryWords(Stsc(es));
            j < |w| && w[j] == if j % 3 == 0 then es[j / 3].firstChunk else if j % 3 == 1 then es[j / 3].samplesPerChunk else es[j / 3].description
  {
  }

  lemma OffsetAt(es: seq<u64>, i: nat)
    requires i < |es|
    ensures var w := EntryWords(Stco(es));
            if AllShort(es) then i < |w| && w[i] == es[i] else 2 * i + 1 < |w| && w[2 * i] * TWO32 + w[2 * i + 1] == es[i]
  {
    hide Wide;
    WideMeans(es);
    if !AllShort(es) { assert 2 * i / 2 == i && (2 * i + 1) / 2 == i && 2 * i % 2 == 0 && (2 * i + 1) % 2 == 1; }
  }

  /** A word of the entries. */
  lemma EntryWord(t: Table, k: nat)
    requires 0 < Count(t) <= MAX_ENTRY_COUNT && k < |EntryWords(t)|
    ensures var at := (if t.Stsz? then 20 else 16) + 4 * k; at + 4 <= |TableBytes(t)| && At32(TableBytes(t), at) == EntryWords(t)[k]
  {
    hide At32, WordBytes, BE32, TableBytes, EntryWords;
    var w := HeaderWords(t) + EntryWords(t);
    TableWords(t, w);
    var all := [8 + 4 * |w|, Kind(t)] + w;
    WordThere(all, [], (if t.Stsz? then 5 else 4) + k);
    assert WordBytes(all) + [] == TableBytes(t);
  }

  lemma EntryIsThere(t: Table, i: nat)
    requires 0 < Count(t) <= MAX_ENTRY_COUNT && i < Count(t)
    ensures EntryThere(t, i, TableBytes(t))
  {
    hide At32, At64, TableBytes, EntryWords, AllShort, Kind;
    match t {
      case Stts(es) =>
        PairAt(es, i);
        EntryWord(t, 2 * i);
        EntryWord(t, 2 * i + 1);
      case Stss(es) => PlainAt(t, i);
      case Stsz(es) => PlainAt(t, i);
      case Stsc(es) =>
        TripleAt(es, i);
        EntryWord(t, 3 * i);
        EntryWord(t, 3 * i + 1);
        EntryWord(t, 3 * i + 2);
      case Stco(es) =>
        OffsetAt(es, i);
        if AllShort(es) {
          EntryWord(t, i);
        } else {
          EntryWord(t, 2 * i);
          EntryWord(t, 2 * i + 1);
          LongWords(TableBytes(t), 16 + 8 * i);
        }
    }
  }

  lemma PlainAt(t: Table, i: nat)
    requires 0 < Count(t) <= MAX_ENTRY_COUNT && i < Count(t) && (t.Stss? || t.Stsz?)
    ensures EntryThere(t, i, TableBytes(t))
  {
    hide At32, TableBytes;
    EntryWord(t, i);
  }

  // ---------- sample descriptions ----------

  /** The size, the type and the number of the data reference that every entry starts with, after version, flags and a count of 1. */
  predicate EntryHead(b: seq<byte>, kind: string)
  {
    && |b| >= 24 && At32(b, 0) == 0 && At32(b, 4) == 1 && At32(b, 8) == |b| - 8 && Spells(b, 12, kind)
    && AllZero(b, 16, 22) && At16(b, 22) == 1
  }

  /** Cut out of the middle. */
  lemma Middle(a: seq<byte>, m: seq<byte>, c: seq<byte>)
    ensures (a + m + c)[|a|..|a| + |m|] == m && (a + (m + c)) == a + m + c
  {
  }

  lemma Half(a: seq<byte>, x: u16, c: seq<byte>)
    ensures At16(a + (BE16(x) + c), |a|) == x
  {
    hide BE16, FromBE16;
    Middle(a, BE16(x), c);
  }

  lemma Whole(a: seq<byte>, x: u32, c: seq<byte>)
    ensures At32(a + (BE32(x) + c), |a|) == x && (a + (BE32(x) + c))[|a|..|a| + 4] == BE32(x)
  {
    hide BE32, FromBE32;
    Middle(a, BE32(x), c);
  }

  /** What follows the count and the head of the entry is `rest`, from 16 on. */
  lemma EntryContent(kind: J.TrackType, c: J.Config, id: nat, info: seq<byte>, code: u32, rest: seq<byte>)
    requires Describable(kind, c) && EntryOf(kind, c, id, info) == Entry(code, rest) && 8 + |rest| < TWO32
    ensures var b := StsdContent(kind, c, id, info);
            && |b| == 16 + |rest| && b[16..] == rest && At32(b, 0) == 0 && At32(b, 4) == 1 && At32(b, 8) == 8 + |rest| && b[12..16] == BE32(code)
  {
    hide EntryOf, WordBytes, BE32, FromBE32;
    var w, n: u32 := [0, 1], 8 + |rest|;
    var b := StsdContent(kind, c, id, info);
    WordThere(w, Entry(code, rest), 0);
    WordThere(w, Entry(code, rest), 1);
    assert b == WordBytes(w) + (BE32(n) + (BE32(code) + rest));
    Whole(WordBytes(w), n, BE32(code) + rest);
    assert b == (WordBytes(w) + BE32(n)) + (BE32(code) + rest);
    Whole(WordBytes(w) + BE32(n), code, rest);
    assert b[16..] == rest;
  }

  /** The fields of a video entry from its own start, 16 bytes into the box. */
  predicate VisualFields(e: seq<byte>, width: u32, height: u32)
    requires |e| >= 78
  {
    && AllZero(e, 0, 6) && At16(e, 6) == 1 && AllZero(e, 8, 24) && At16(e, 24) == width % 0x1_0000 && At16(e, 26) == height % 0x1_0000
    && At32(e, 28) == At32(e, 32) == 0x48_0000 && At32(e, 36) == 0 && At16(e, 40) == 1 && AllZero(e, 42, 74)
    && At16(e, 74) == 24 && At16(e, 76) == 0xFFFF
  }

  /** A word of 0 is four bytes of 0. */
  lemma ZeroThere(w: seq<u32>, rest: seq<byte>, i: nat)
    requires i < |w| && w[i] == 0
    ensures AllZero(WordBytes(w) + rest, 4 * i, 4 * i + 4)
  {
    hide WordBytes;
    WordAt(w, i);
    assert BE32(0) == [0, 0, 0, 0];
    var b := WordBytes(w) + rest;
    forall k | 4 * i <= k < 4 * i + 4 ensures b[k] == 0 {
      assert b[k] == WordBytes(w)[4 * i..4 * i + 4][k - 4 * i];
    }
  }

  lemma VisualThere(width: u32, height: u32, rest: seq<byte>)
    ensures var e := VisualHead(width, height) + rest; VisualFields(e, width, height) && AllZero(e, 0, 6) && At16(e, 6) == 1
  {
    hide At16, At32, WordBytes, BE16, BE32, AllZero;
    var w := VisualWords(width, height);
    var more := BE16(1) + (Zeros(32) + BE32(0x18ffff)) + rest;
    var e := VisualHead(width, height) + rest;
    assert e == WordBytes(w) + more;
    VisualStart(w, more, width, height);
    WordThere(w, more, 7);
    WordThere(w, more, 8);
    WordThere(w, more, 9);
    VisualEnd(WordBytes(w), rest);
    assert e == WordBytes(w) + (BE16(1) + (Zeros(32) + (BE32(0x18ffff) + rest)));
  }

  lemma VisualStart(w: seq<u32>, more: seq<byte>, width: u32, height: u32)
    requires w == VisualWords(width, height)
    ensures var e := WordBytes(w) + more;
            && AllZero(e, 0, 6) && At16(e, 6) == 1 && AllZero(e, 8, 24) && At16(e, 24) == width % 0x1_0000 && At16(e, 26) == height % 0x1_0000
  {
    hide At16, WordBytes;
    ZeroThere(w, more, 0);
    HalvesThere(w, more, 1);
    SmallWord(w, more, 1);
    ZeroThere(w, more, 2);
    ZeroThere(w, more, 3);
    ZeroThere(w, more, 4);
    ZeroThere(w, more, 5);
    HalvesThere(w, more, 6);
    var hi: int, lo: int := width % 0x1_0000, height % 0x1_0000;
    assert (hi * 0x1_0000 + lo) / 0x1_0000 == hi && (hi * 0x1_0000 + lo) % 0x1_0000 == lo;
  }

  /** The upper half of a small number is 0. */
  lemma SmallWord(w: seq<u32>, rest: seq<byte>, i: nat)
    requires i < |w| && w[i] == 1
    ensures AllZero(WordBytes(w) + rest, 4 * i, 4 * i + 2)
  {
    hide WordBytes;
    WordAt(w, i);
    assert BE32(1) == [0, 0, 0, 1];
    var b := WordBytes(w) + rest;
    forall k | 4 * i <= k < 4 * i + 2 ensures b[k] == 0 {
      assert b[k] == WordBytes(w)[4 * i..4 * i + 4][k - 4 * i];
    }
  }

  lemma VisualEnd(start: seq<byte>, rest: seq<byte>)
    requires |start| == 40
    ensures var e := start + (BE16(1) + (Zeros(32) + (BE32(0x18ffff) + rest)));
            At16(e, 40) == 1 && AllZero(e, 42, 74) && At16(e, 74) == 24 && At16(e, 76) == 0xFFFF
  {
    hide BE16, FromBE16;
    var e := start + (BE16(1) + (Zeros(32) + (BE32(0x18ffff) + rest)));
    Half(start, 1, Zeros(32) + (BE32(0x18ffff) + rest));
    assert e == (start + BE16(1) + Zeros(32)) + (BE16(24) + (BE16(0xFFFF) + rest)) by {
      assert BE32(0x18ffff) == BE16(24) + BE16(0xFFFF);
    }
    Half(start + BE16(1) + Zeros(32), 24, BE16(0xFFFF) + rest);
    assert e == (start + BE16(1) + Zeros(32) + BE16(24)) + (BE16(0xFFFF) + rest);
    Half(start + BE16(1) + Zeros(32) + BE16(24), 0xFFFF, rest);
    forall k | 42 <= k < 74 ensures e[k] == 0 {
      assert e[k] == Zeros(32)[k - 42];
    }
  }

  /** A video track: the size of its pictures, and the box of its decoder configuration. */
  lemma VideoLayout(c: J.Config, id: nat, info: seq<byte>)
    requires Describable(J.Video, c) && |info| == HVCC_INFO && |CodecBytes(c, info)| + 100 < TWO32
    ensures var b := StsdContent(J.Video, c, id, info);
            && EntryHead(b, if c.Avc? then "avc1" else "hvc1") && |b| >= 94 + 8
            && VisualFields(b[16..], c.width, c.height)
            && b[94..] == CodecBytes(c, info) && At32(b, 94) == |b| - 94 && Spells(b, 98, if c.Avc? then "avcC" else "hvcC")
  {
    hide At16, At32, VisualFields, CodecBytes, VisualHead, IsCode, BE32, Spells;
    var code := if c.Avc? then J.AVC1 else J.HVC1;
    var rest := VisualHead(c.width, c.height) + CodecBytes(c, info);
    EntryContent(J.Video, c, id, info, code, rest);
    VisualThere(c.width, c.height, CodecBytes(c, info));
    CodecHead(c, info);
    OtherCodes();
    var b := StsdContent(J.Video, c, id, info);
    CodeThere(b, 12, code);
    HeadFrom(b, rest);
    assert b[94..] == b[16..][78..] == CodecBytes(c, info);
    Moved(b, 94, 0);
    Moved(b, 94, 4);
    CodeThere(b, 98, CodecKind(c));
  }

  /** Positions in what is left of a box. */
  lemma Moved(b: seq<byte>, from: nat, i: nat)
    requires from + i + 4 <= |b|
    ensures At32(b[from..], i) == At32(b, from + i) && b[from..][i..i + 4] == b[from + i..from + i + 4]
  {
    hide FromBE32;
    assert b[from..][i..i + 4] == b[from + i..from + i + 4];
  }

  lemma Dropped(b: seq<byte>, i: nat, j: nat)
    requires i + j <= |b|
    ensures b[i..][j..] == b[i + j..]
  {
  }

  lemma Behind(a: seq<byte>, c: seq<byte>)
    ensures (a + c)[|a|..] == c
  {
  }

  lemma HeadFrom(b: seq<byte>, e: seq<byte>)
    requires |b| >= 24 && b[16..] == e && |e| >= 8 && AllZero(e, 0, 6) && At16(e, 6) == 1
    ensures AllZero(b, 16, 22) && At16(b, 22) == 1
  {
    hide FromBE16;
    assert b[22..24] == e[6..8];
    forall k | 16 <= k < 22 ensures b[k] == 0 {
      assert b[k] == e[k - 16];
    }
  }

  lemma CodecHead(c: J.Config, info: seq<byte>)
    requires Describable(J.Video, c) && |info| == HVCC_INFO && |CodecBytes(c, info)| < TWO32
    ensures var b := CodecBytes(c, info); |b| >= 8 && At32(b, 0) == |b| && b[4..8] == BE32(CodecKind(c))
  {
    hide BE32, FromBE32, AvccContent, HvccContent;
    var b := CodecBytes(c, info);
    if c.Avc? {
      Whole([], |b|, BE32(AVCC) + AvccContent(c.sps, c.pps));
      assert b == [] + (BE32(|b|) + (BE32(AVCC) + AvccContent(c.sps, c.pps)));
    } else {
      Whole([], |b|, BE32(HVCC) + HvccContent(info, c.vps, c.sps, c.pps));
      assert b == [] + (BE32(|b|) + (BE32(HVCC) + HvccContent(info, c.vps, c.sps, c.pps)));
    }
    assert b[4..8] == BE32(CodecKind(c));
  }

  /** The fields of an audio entry from its own start: stereo and 16 bits whatever was set, and the sampling rate. */
  predicate AudioFields(e: seq<byte>, rate: u32)
    requires |e| >= 28
  {
    && AllZero(e, 0, 6) && At16(e, 6) == 1 && AllZero(e, 8, 16) && At16(e, 16) == 2 && At16(e, 18) == 16 && AllZero(e, 20, 24)
    && At32(e, 24) == rate
  }

  lemma AudioThere(rate: u32, rest: seq<byte>)
    ensures var e := AudioHead(rate) + rest; AudioFields(e, rate) && AllZero(e, 0, 6) && At16(e, 6) == 1
  {
    hide At16, At32, WordBytes;
    var w := AudioWords(rate);
    ZeroThere(w, rest, 0);
    HalvesThere(w, rest, 1);
    SmallWord(w, rest, 1);
    ZeroThere(w, rest, 2);
    ZeroThere(w, rest, 3);
    HalvesThere(w, rest, 4);
    ZeroThere(w, rest, 5);
    WordThere(w, rest, 6);
  }

  /** An audio track: the box of its specific configuration follows its fields. */
  lemma AudioLayout(c: J.Config, id: nat, info: seq<byte>)
    requires Describable(J.Audio, c)
    ensures var b := StsdContent(J.Audio, c, id, info);
            && EntryHead(b, "mp4a") && |b| >= 44 + 8 && AudioFields(b[16..], c.sampleRate)
            && At32(b, 44) == |b| - 44 && Spells(b, 48, "esds")
            && b[52..] == EsdsContent(EsSize(c.asc), DcdSize(c.asc), |c.asc|, id % 0x1_0000, c.asc)
  {
    hide At16, At32, AudioFields, EsdsContent, EsdsBytes, AudioHead, IsCode, BE32, Spells, EsSize, DcdSize, Groups, AllZero;
    FitsBox(c.asc);
    GroupsShort(EsSize(c.asc));
    var esds := EsdsBytes(id % 0x1_0000, c.asc);
    var rest := AudioHead(c.sampleRate) + esds;
    EsdsLength(id % 0x1_0000, c.asc);
    EntryContent(J.Audio, c, id, info, MP4A, rest);
    AudioThere(c.sampleRate, esds);
    EsdsHead(id % 0x1_0000, c.asc);
    OtherCodes();
    var b := StsdContent(J.Audio, c, id, info);
    CodeThere(b, 12, MP4A);
    HeadFrom(b, rest);
    Dropped(b, 16, 28);
    Behind(AudioHead(c.sampleRate), esds);
    Moved(b, 44, 0);
    Moved(b, 44, 4);
    CodeThere(b, 48, ESDS);
    Dropped(b, 44, 8);
  }

  /** The descriptors of an audio configuration, each behind its length, with no rates and an empty header of packets. */
  lemma DescriptorLayout(id: u16, asc: seq<byte>)
    ensures var dsi: nat := |asc|;
            var dcd: nat := 14 + |Groups(dsi)| + dsi;
            var es: nat := 4 + |Groups(dcd)| + dcd;
            EsdsContent(EsSize(asc), DcdSize(asc), |asc|, id, asc) ==
              [0, 0, 0, 0] + [3] + Groups(es) + [id / 0x100, id % 0x100, 0] + [4] + Groups(dcd) + [0x40, 0x15] + Zeros(11)
              + [5] + Groups(dsi) + asc + [6, 1, 2]
  {
    hide Groups;
    assert BE32(0) == [0, 0, 0, 0] && BE16(id) == [id / 0x100, id % 0x100];
    assert ZEROES == Zeros(11);
    var dsi: nat := |asc|;
    var dcd: nat := 14 + |Groups(dsi)| + dsi;
    var es: nat := 4 + |Groups(dcd)| + dcd;
    assert es == EsSize(asc) && dcd == DcdSize(asc);
    var a := [0, 0, 0, 0] + [3] + Groups(es) + [id / 0x100, id % 0x100, 0];
    var b := [4] + Groups(dcd) + [0x40, 0x15] + Zeros(11);
    assert DsiTail(dsi, asc) == [5] + Groups(dsi) + asc + [6, 1, 2];
    assert DcdTail(dcd, dsi, asc) == b + DsiTail(dsi, asc);
    assert EsdsContent(es, dcd, dsi, id, asc) == a + DcdTail(dcd, dsi, asc);
  }

  lemma EsdsHead(id: u16, asc: seq<byte>)
    requires AscFits(asc) && 16 + EsSize(asc) + |Groups(EsSize(asc))| < TWO32
    ensures var b := EsdsBytes(id, asc);
            |b| >= 8 && At32(b, 0) == |b| && b[4..8] == BE32(ESDS) && b[8..] == EsdsContent(EsSize(asc), DcdSize(asc), |asc|, id, asc)
  {
    hide BE32, FromBE32, EsdsContent, EsSize, DcdSize, Groups;
    EsdsLength(id, asc);
    var b, content := EsdsBytes(id, asc), EsdsContent(EsSize(asc), DcdSize(asc), |asc|, id, asc);
    Whole([], |b|, BE32(ESDS) + content);
    assert b == [] + (BE32(|b|) + (BE32(ESDS) + content));
  }

  /** A track of timed metadata: its content encoding and its MIME type, each ended by a zero; a long one counts as empty. */
  lemma TimedLayout(c: J.Config, id: nat, info: seq<byte>)
    requires c.Mime?
    ensures var b := StsdContent(J.Timed, c, id, info);
            && EntryHead(b, "mett")
            && b[24..] == (if |c.encoding| < 65535 then c.encoding else []) + [0] + ((if |c.mime| < 65535 then c.mime else []) + [0])
  {
    hide At16, At32, IsCode, BE32, Spells;
    var texts := Text(c.encoding) + Text(c.mime);
    var rest := Zeros(6) + (BE16(1) + texts);
    EntryContent(J.Timed, c, id, info, METT, rest);
    OtherCodes();
    var b := StsdContent(J.Timed, c, id, info);
    CodeThere(b, 12, METT);
    Half(Zeros(6), 1, texts);
    HeadFrom(b, rest);
    assert b[24..] == b[16..][8..] == texts;
  }

  /** A chapter track: text that is displayed, with a style of its own size of nothing. */
  lemma ChaptersLayout(c: J.Config, id: nat, info: seq<byte>)
    ensures var b := StsdContent(J.Chapters, c, id, info);
            && EntryHead(b, "text") && |b| == 67 && At32(b, 24) == 1 && AllZero(b, 28, 60)
            && b[60..] == [0xff, 0xff, 0xff, 0xff, 0xff, 0xff, 0]
  {
    hide At16, At32, IsCode, BE32, Spells, BE16;
    var tail := Zeros(32) + [0xff, 0xff, 0xff, 0xff, 0xff, 0xff, 0];
    var rest := Zeros(6) + (BE16(1) + (BE32(1) + tail));
    EntryContent(J.Chapters, c, id, info, TEXT, rest);
    OtherCodes();
    var b := StsdContent(J.Chapters, c, id, info);
    CodeThere(b, 12, TEXT);
    Half(Zeros(6), 1, BE32(1) + tail);
    HeadFrom(b, rest);
    assert rest == (Zeros(6) + BE16(1)) + (BE32(1) + tail);
    Whole(Zeros(6) + BE16(1), 1, tail);
    Moved(b, 16, 8);
    assert b[28..] == b[16..][12..] == tail;
    assert forall k :: 28 <= k < 60 ==> b[k] == b[28..][k - 28] == tail[k - 28];
    assert b[60..] == tail[32..];
  }

  // ---------- what the boxes of a track hold ----------

  /** The types of boxes, in order. */
  function Kinds(bs: seq<Box>): (kinds: seq<u32>)
    ensures |kinds| == |bs|
  {
    seq(|bs|, i requires 0 <= i < |bs| => W.KindOf(bs[i]))
  }

  /** Each box of a track holds what it has to, in this order. */
  lemma TrakShape(r: TrackRow, info: Info)
    ensures Kinds(TrakBox(r, info).children) == [TKHD] + (if r.refIds == [] then [] else [TREF]) + [MDIA] + Kinds(MetaBoxes(r.state.metas, NO_COVER))
    ensures Kinds(Mdia(r, info).children) == [MDHD, HDLR, MINF]
    ensures Kinds(Minf(r, info).children) ==
            [match r.state.info.kind case Video => VMHD case Audio => SMHD case Timed => NMHD case Chapters => GMHD, DINF, STBL]
    ensures Kinds(Dinf().children) == [DREF]
  {
    hide WordBytes, MetaBoxes, Stbl, MediaContent;
    assert W.KindOf(Stbl(r, info)) == STBL by { StblShape(r, info); }
  }

  lemma StblShape(r: TrackRow, info: Info)
    ensures W.KindOf(Stbl(r, info)) == STBL
    ensures Kinds(Stbl(r, info).children) ==
            [STSD, STTS] + (if r.state.syncs == [] then [] else [STSS]) + [STSC, STSZ, if AllShort(r.state.chunks) then STCO else CO64]
  {
    hide AllShort;
    WideMeans(r.state.chunks);
  }

  /** The movie box: its header, a box for each track with samples, and the metadata. */
  lemma MoovShape(rows: seq<TrackRow>, timescale: u32, ms: seq<M.Meta>, c: CoverArt, fixed: Fixed)
    ensures var bs := Moov(rows, timescale, ms, c, fixed).children;
            && bs == [Header(MvhdOf(rows, timescale, fixed))] + Traks(rows, fixed.infos) + MetaBoxes(ms, c)
            && forall i :: 0 <= i < |Traks(rows, fixed.infos)| ==> W.KindOf(Traks(rows, fixed.infos)[i]) == TRAK
  {
    hide MetaBoxes, TrakBox, MvhdOf;
    TraksOnly(rows, fixed.infos);
  }

  lemma {:induction false} TraksOnly(rows: seq<TrackRow>, infos: u32 -> Info)
    ensures forall i :: 0 <= i < |Traks(rows, infos)| ==> W.KindOf(Traks(rows, infos)[i]) == TRAK
  {
    hide Mdia, MetaBoxes, RefBoxes;
    if rows != [] { TraksOnly(rows[1..], infos); }
  }

  /** The boxes of metadata: a handler of its own kind before the keys or the entries. */
  lemma MetaShape(keyed: seq<M.Meta>, tagged: seq<M.Meta>, c: CoverArt)
    ensures KeyedBox(keyed).kind == META && Kinds(KeyedBox(keyed).children) == [HDLR, KEYS, ILST]
    ensures KeyedBox(keyed).children[0] == Header(MetaHdlr(false))
    ensures TaggedBox(tagged, c).kind == META && Kinds(TaggedBox(tagged, c).children) == [HDLR, ILST]
    ensures TaggedBox(tagged, c).children[0] == Header(MetaHdlr(true))
  {
  }

  /** What the headers of the media say besides their types. */
  lemma MediaLayout(kind: J.TrackType)
    ensures var b := MediaContent(kind);
            match kind
            case Video => |b| == 12 && At32(b, 0) == 1 && AllZero(b, 4, 12)
            case Audio => |b| == 8 && AllZero(b, 0, 8)
            case Timed => |b| == 4 && AllZero(b, 0, 4)
            case Chapters =>
              && |b| == 24 && At32(b, 0) == 24 && Spells(b, 4, "gmin") && AllZero(b, 8, 12)
              && At16(b, 12) == 0x40 && At16(b, 14) == At16(b, 16) == At16(b, 18) == 0x8000 && AllZero(b, 20, 24)
  {
    hide BE32, FromBE32, BE16, FromBE16, IsCode;
    match kind {
      case Video =>
        Whole([], 1, Zeros(8));
        assert MediaContent(kind) == [] + (BE32(1) + Zeros(8));
      case Audio =>
      case Timed =>
      case Chapters => GminLayout();
    }
  }

  lemma GminLayout()
    ensures var b := MediaContent(J.Chapters);
            && |b| == 24 && At32(b, 0) == 24 && Spells(b, 4, "gmin") && AllZero(b, 8, 12)
            && At16(b, 12) == 0x40 && At16(b, 14) == At16(b, 16) == At16(b, 18) == 0x8000 && AllZero(b, 20, 24)
  {
    hide BE32, BE16, At16, At32, IsCode, Spells;
    var b := MediaContent(J.Chapters);
    var e := BE16(0x8000) + Zeros(4);
    var d := BE16(0x8000) + e;
    var c := BE16(0x8000) + d;
    var a := Zeros(4) + (BE16(0x40) + c);
    assert b == BE32(24) + (BE32(GMIN) + a);
    Whole([], 24, BE32(GMIN) + a);
    assert b == [] + (BE32(24) + (BE32(GMIN) + a));
    Whole(BE32(24), GMIN, a);
    MediaCodes();
    CodeThere(b, 4, GMIN);
    var head := BE32(24) + BE32(GMIN) + Zeros(4);
    assert b == head + (BE16(0x40) + c);
    Half(head, 0x40, c);
    assert b == (head + BE16(0x40)) + (BE16(0x8000) + d);
    Half(head + BE16(0x40), 0x8000, d);
    assert b == (head + BE16(0x40) + BE16(0x8000)) + (BE16(0x8000) + e);
    Half(head + BE16(0x40) + BE16(0x8000), 0x8000, e);
    assert b == (head + BE16(0x40) + BE16(0x8000) + BE16(0x8000)) + (BE16(0x8000) + Zeros(4));
    Half(head + BE16(0x40) + BE16(0x8000) + BE16(0x8000), 0x8000, Zeros(4));
    assert b[8..12] == Zeros(4) && b[20..24] == Zeros(4);
    assert forall k :: 8 <= k < 12 ==> b[k] == b[8..12][k - 8];
    assert forall k :: 20 <= k < 24 ==> b[k] == b[20..24][k - 20];
  }

  /** One reference, to the file itself. */
  lemma DrefLayout()
    ensures var b := WordBytes(DREF_WORDS);
            |b| == 20 && At32(b, 0) == 0 && At32(b, 4) == 1 && At32(b, 8) == 12 && Spells(b, 12, "url ") && At32(b, 16) == 1
  {
    hide WordBytes, At32, BE32, IsCode;
    var w := DREF_WORDS;
    assert WordBytes(w) + [] == WordBytes(w);
    WordThere(w, [], 0);
    WordThere(w, [], 1);
    WordThere(w, [], 2);
    WordThere(w, [], 4);
    WordAt(w, 3);
    MediaCodes();
    CodeThere(WordBytes(w), 12, URL);
  }

  /** The brands at the start of every file. */
  lemma FtypLayout()
    ensures var b := BoxBytes(L.Ftyp());
            && |b| == 32 && At32(b, 0) == 32 && Spells(b, 4, "ftyp") && Spells(b, 8, "isom") && At32(b, 12) == 2
            && Spells(b, 16, "isom") && Spells(b, 20, "iso2") && Spells(b, 24, "mp41") && Spells(b, 28, "avc1")
  {
    hide WordBytes, At32, BE32, IsCode, BoxBytes;
    L.FtypBytes();
    var w := MuxFile.FTYP_WORDS;
    assert WordBytes(w) + [] == WordBytes(w);
    WordThere(w, [], 0);
    WordThere(w, [], 3);
    WordAt(w, 1);
    WordAt(w, 2);
    WordAt(w, 4);
    WordAt(w, 5);
    WordAt(w, 6);
    WordAt(w, 7);
    ContainerCodes();
    CodeSpells(MuxFile.ISOM, "isom");
    CodeSpells(MuxFile.ISO2, "iso2");
    CodeSpells(MuxFile.MP41, "mp41");
    CodeSpells(MuxFile.AVC1, "avc1");
    var b := WordBytes(w);
    CodeThere(b, 4, FTYP);
    CodeThere(b, 8, MuxFile.ISOM);
    CodeThere(b, 16, MuxFile.ISOM);
    CodeThere(b, 20, MuxFile.ISO2);
    CodeThere(b, 24, MuxFile.MP41);
    CodeThere(b, 28, MuxFile.AVC1);
  }

  // ---------- metadata ----------

  /** The handler of a list with keys, and of one with tags. */
  lemma MetaHdlrLayout(tagged: bool)
    ensures var b := HeaderContent(MetaHdlr(tagged));
            && |b| == 25 && At32(b, 0) == At32(b, 16) == At32(b, 20) == 0 && b[24] == 0
            && if tagged then Spells(b, 4, "mhlr") && Spells(b, 8, "mdir") && Spells(b, 12, "appl")
               else At32(b, 4) == At32(b, 12) == 0 && Spells(b, 8, "mdta")
  {
    hide WordBytes, At32, BE32, IsCode;
    var w := FixedWords(MetaHdlr(tagged));
    var b := WordBytes(w) + [0];
    WordThere(w, [0], 0);
    WordThere(w, [0], 1);
    WordThere(w, [0], 3);
    WordThere(w, [0], 4);
    WordThere(w, [0], 5);
    CodeInWords(w, [0], 1);
    CodeInWords(w, [0], 2);
    CodeInWords(w, [0], 3);
    OtherCodes();
    CodeThere(b, 4, w[1]);
    CodeThere(b, 8, w[2]);
    CodeThere(b, 12, w[3]);
  }

  lemma CodeInWords(w: seq<u32>, rest: seq<byte>, i: nat)
    requires i < |w|
    ensures (WordBytes(w) + rest)[4 * i..4 * i + 4] == BE32(w[i])
  {
    hide WordBytes, BE32;
    WordAt(w, i);
    assert (WordBytes(w) + rest)[4 * i..4 * i + 4] == WordBytes(w)[4 * i..4 * i + 4];
  }

  /** Where a key starts in the list of keys. */
  function KeyAt(keys: seq<seq<byte>>, i: nat): nat
    requires i <= |keys|
  {
    if i == 0 then 8 else KeyAt(keys, i - 1) + 8 + |keys[i - 1]|
  }

  /** The list of keys: their number, and each of them with its size and its namespace. */
  lemma KeysLayout(keys: seq<seq<byte>>, i: nat)
    requires i < |keys| < TWO32 && 8 + |keys[i]| < TWO32
    ensures var b, at := HeaderContent(Keys(keys)), KeyAt(keys, i);
            && |b| >= at + 8 + |keys[i]| && At32(b, 0) == 0 && At32(b, 4) == |keys|
            && At32(b, at) == 8 + |keys[i]| && Spells(b, at + 4, "mdta") && b[at + 8..at + 8 + |keys[i]|] == keys[i]
  {
    hide At32, BE32, KeyBytes, Spells, HeaderContent, KeyAt;
    KeysStart(keys);
    var head := KeyContent(keys, i);
    KeyHere(keys, i);
    KeyFields(head, keys[i], KeyBytes(keys[i + 1..]));
  }

  lemma KeysStart(keys: seq<seq<byte>>)
    requires |keys| < TWO32
    ensures var b := HeaderContent(Keys(keys)); |b| >= 8 && At32(b, 0) == 0 && At32(b, 4) == |keys|
  {
    hide WordBytes, At32, KeyBytes;
    var w := [0, |keys|];
    WordThere(w, KeyBytes(keys), 0);
    WordThere(w, KeyBytes(keys), 1);
  }

  lemma Regrouped(a: seq<byte>, b: seq<byte>, c: seq<byte>)
    ensures a + (b + c) == (a + b) + c
  {
  }

  /** What is before a key in the list. */
  lemma KeyContent(keys: seq<seq<byte>>, i: nat) returns (head: seq<byte>)
    requires i < |keys| < TWO32
    ensures |head| == KeyAt(keys, i) && HeaderContent(Keys(keys)) == head + KeyBytes(keys[i..])
  {
    hide WordBytes, BE32, KeyBytes, KeyAt, HeaderContent;
    var w := [0, |keys|];
    X.KeysContent(keys);
    var front := KeysFrom(keys, i);
    head := WordBytes(w) + front;
    Regrouped(WordBytes(w), front, KeyBytes(keys[i..]));
  }

  lemma KeyHere(keys: seq<seq<byte>>, i: nat)
    requires i < |keys| && 8 + |keys[i]| < TWO32
    ensures KeyBytes(keys[i..]) == BE32(8 + |keys[i]|) + (BE32(MDTA) + (keys[i] + KeyBytes(keys[i + 1..])))
  {
    hide BE32, KeyBytes;
    X.NextKey(keys, i);
  }

  lemma KeyFields(head: seq<byte>, key: seq<byte>, more: seq<byte>)
    requires 8 + |key| < TWO32
    ensures var b, at := head + (BE32(8 + |key|) + (BE32(MDTA) + (key + more))), |head|;
            At32(b, at) == 8 + |key| && Spells(b, at + 4, "mdta") && b[at + 8..at + 8 + |key|] == key
  {
    hide At32, BE32, IsCode, Spells;
    var n: u32 := 8 + |key|;
    var b := head + (BE32(n) + (BE32(MDTA) + (key + more)));
    Whole(head, n, BE32(MDTA) + (key + more));
    assert b == (head + BE32(n)) + (BE32(MDTA) + (key + more));
    Whole(head + BE32(n), MDTA, key + more);
    OtherCodes();
    CodeThere(b, |head| + 4, MDTA);
    KeyInside(head, BE32(n), BE32(MDTA), key, more);
  }

  lemma KeyInside(head: seq<byte>, x: seq<byte>, y: seq<byte>, key: seq<byte>, more: seq<byte>)
    requires |x| == |y| == 4
    ensures (head + (x + (y + (key + more))))[|head| + 8..|head| + 8 + |key|] == key
  {
  }

  /** What is before a key. */
  lemma {:induction false} KeysFrom(keys: seq<seq<byte>>, i: nat) returns (front: seq<byte>)
    requires i <= |keys|
    ensures KeyBytes(keys) == front + KeyBytes(keys[i..]) && |front| + 8 == KeyAt(keys, i)
  {
    hide BE32, KeyBytes;
    if i == 0 {
      front := [];
      assert keys[0..] == keys;
    } else {
      front := KeysFrom(keys, i - 1);
      X.NextKey(keys, i - 1);
      var key := BE32((8 + |keys[i - 1]|) % TWO32) + (BE32(MDTA) + keys[i - 1]);
      assert front + KeyBytes(keys[i - 1..]) == (front + key) + KeyBytes(keys[i..]);
      front := front + key;
    }
  }

  /** A value with its format. */
  lemma DataLayout(format: u32, value: seq<byte>)
    ensures var b := HeaderContent(Data(format, value)); At32(b, 0) == format && At32(b, 4) == 0 && b[8..] == value
  {
    hide WordBytes, At32;
    var w := [format, 0];
    WordThere(w, value, 0);
    WordThere(w, value, 1);
  }

  /** A location with its length and its language. */
  lemma LocationLayout(value: seq<byte>)
    requires |value| < 0x1_0000
    ensures var b := HeaderContent(Location(value)); At16(b, 0) == |value| && At16(b, 2) == 0x55c4 && b[4..] == value
  {
    hide WordBytes, At16, BE16, HeaderContent;
    X.LocationContent(value);
    var n: u16, b := |value|, HeaderContent(Location(value));
    Half([], n, BE16(LANGUAGE) + value);
    assert b == [] + (BE16(n) + (BE16(LANGUAGE) + value));
    Half(BE16(n), LANGUAGE, value);
  }

  // ---------- limits and beginnings ----------

  /** How much the demuxer and the reader of the journal take. */
  lemma LimitsAre()
    ensures MAX_ENTRY_COUNT == 10000000 && MAX_REFERENCES == 10 && X.MAX_KEYS == 10000000 && C.MAX_CHAPTERS == 100
    ensures J.MAX_ITEM_NUMBER == 1000000 && J.MAX_ALLOC_SIZE == 10000000 && R.REFS_SIZE == 4 * 10
    ensures M.NAME_MAX == 255 && M.VALUE_MAX == 65535 && SET_MAX == 65535 && HVCC_INFO == 22
    ensures D.MAX_ARRAYS == 16 && D.STRING_MAX == 999 && D.MAX_DESCRIPTIONS == 10000000 && H.NAME_BUFFER == 99
    ensures J.MAGIC == 0x5245_434F && J.VERSION == 3
    ensures W.MinSize(FTYP) == W.MinSize(SMHD) == 8 && W.MinSize(VMHD) == 12 && W.MinSize(HMHD) == 20 && W.MinSize(NMHD) == 4
  {
  }

  /** A new track has no samples and nothing of a configuration; of a track that has not been read, the demuxer knows nothing. */
  lemma BeginningsAre(kind: J.TrackType)
    ensures match R.InitialConfig(kind)
            case Aac(codec, asc, channels, sampleSize, sampleRate) => kind.Audio? && codec == channels == sampleSize == sampleRate == 0 && asc == []
            case Mime(encoding, mime) => kind.Timed? && encoding == mime == []
            case NoConfig => kind.Video? || kind.Chapters?
            case _ => false
    ensures R.ONE_PER_CHUNK == [StcEntry(1, 1, 1)]
    ensures var t := W.NO_TABLES;
            && t.id == t.timescale == t.refKind == 0 && t.duration == 0 && t.handler == UnknownHandler && t.refs == []
            && t.texts.keys == [] && t.texts.values == [] && t.times == None && t.syncs == None && t.sizes == None
            && t.chunks == None && t.offsets == None
    ensures var d := NO_DESC;
            && d.codec == NoCodec && d.sets.sps == d.sets.pps == d.sets.vps == None && d.asc == None
            && d.width == d.height == d.channels == d.sampleSize == 0 && d.rate == 0
    ensures var s := W.NOTHING_SEEN; s.tracks == [] && s.descs == [] && s.timescale == 0 && s.duration == 0 && s.notes == X.NO_NOTES
  {
  }
}
