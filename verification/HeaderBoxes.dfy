/**
 The boxes that say what a movie and its tracks are (sections 8.2.2, 8.3.2, 8.3.3,
 8.4.2, 8.4.3 and 8.5.2 of ISO/IEC 14496-12), and those that hold their metadata, as
 the muxer writes them.
 */
module HeaderBoxes {
  import opened Bytes
  import opened Wrappers
  import opened ConfigBytes
  import J = JournalFormat

  const MVHD: u32 := 0x6d766864
  const TKHD: u32 := 0x746b6864
  const TREF: u32 := 0x74726566
  const MDHD: u32 := 0x6d646864
  const HDLR: u32 := 0x68646c72
  const STSD: u32 := 0x73747364
  const VMHD: u32 := 0x766d6864
  const SMHD: u32 := 0x736d6864
  const HMHD: u32 := 0x686d6864
  const NMHD: u32 := 0x6e6d6864
  const GMHD: u32 := 0x676d6864
  const GMIN: u32 := 0x676d696e
  const DREF: u32 := 0x64726566
  const URL: u32 := 0x75726c20
  const CDSC: u32 := 0x63647363
  const CHAP: u32 := 0x63686170
  const KEYS: u32 := 0x6b657973
  const DATA: u32 := 0x64617461
  const LOCATION: u32 := 0xa978797a
  const MDTA: u32 := 0x6d647461
  const MDIR: u32 := 0x6d646972
  const APPL: u32 := 0x6170706c
  const MHLR: u32 := 0x6d686c72

  datatype HeaderBox =
    | Mvhd(created: u64, modified: u64, timescale: u32, duration: u64, tracks: nat)
    | Tkhd(flags: u32, created: u64, modified: u64, id: u32, duration: u64, audio: bool, width: u32, height: u32)
    | Tref(reference: u32, ids: seq<u32>)
    | Mdhd(created: u64, modified: u64, timescale: u32, duration: u64)
    | Hdlr(kind: J.TrackType, name: seq<byte>)
    | Stsd(kind: J.TrackType, config: J.Config, id: u32, info: seq<byte>)
    | MetaHdlr(tagged: bool)                     // the handler of a list of metadata
    | Keys(keys: seq<seq<byte>>)                 // the keys of a list of metadata
    | Data(format: u32, value: seq<byte>)        // a value in such a list
    | Location(value: seq<byte>)                 // a location outside of any list

  function HeaderKind(h: HeaderBox): u32
  {
    match h
    case Mvhd(_, _, _, _, _) => MVHD
    case Tkhd(_, _, _, _, _, _, _, _) => TKHD
    case Tref(_, _) => TREF
    case Mdhd(_, _, _, _) => MDHD
    case Hdlr(_, _) => HDLR
    case Stsd(_, _, _, _) => STSD
    case MetaHdlr(_) => HDLR
    case Keys(_) => KEYS
    case Data(_, _) => DATA
    case Location(_) => LOCATION
  }

  function Hi(x: u64): u32 { x / TWO32 }

  function Lo(x: u64): u32 { x % TWO32 }

  /** No rotation, no scaling. */
  const MATRIX: seq<u32> := [0x1_0000, 0, 0, 0, 0x1_0000, 0, 0, 0, 0x4000_0000]

  const MOVIE_TAIL: seq<u32> := [0x1_0000, 0x0100_0000, 0, 0] + MATRIX + [0, 0, 0, 0, 0, 0]

  /** Version 1: times and durations have 64 bits. */
  function MvhdWords(created: u64, modified: u64, timescale: u32, duration: u64, tracks: nat): (w: seq<u32>)
    ensures |w| == 28
  {
    [0x0100_0000, Hi(created), Lo(created), Hi(modified), Lo(modified), timescale, Hi(duration), Lo(duration)] + MOVIE_TAIL + [(tracks + 1) % TWO32]
  }

  function TkhdWords(flags: u32, created: u64, modified: u64, id: u32, duration: u64, audio: bool, width: u32, height: u32): (w: seq<u32>)
    ensures |w| == 24
  {
    [0x0100_0000 + flags % 8, Hi(created), Lo(created), Hi(modified), Lo(modified), id, 0, Hi(duration), Lo(duration)] +
    [0, 0, 0, if audio then 0x0100_0000 else 0] + MATRIX + [width % 0x1_0000 * 0x1_0000, height % 0x1_0000 * 0x1_0000]
  }

  function MdhdWords(created: u64, modified: u64, timescale: u32, duration: u64): (w: seq<u32>)
    ensures |w| == 9
  {
    [0x0100_0000, Hi(created), Lo(created), Hi(modified), Lo(modified), timescale, Hi(duration), Lo(duration), 0]
  }

  /** All the references, once for every one of them. */
  function TrefWords(reference: u32, ids: seq<u32>, times: nat): (w: seq<u32>)
    ensures |w| == times * (|ids| + 2)
    decreases times
  {
    if times == 0 then [] else [(8 + 4 * |ids|) % TWO32, reference] + ids + TrefWords(reference, ids, times - 1)
  }

  function HandlerCode(kind: J.TrackType): u32
  {
    match kind
    case Video => 0x76696465
    case Audio => 0x736f756e
    case Timed => 0x6d657461
    case Chapters => 0x74657874
  }

  /** What the demuxer makes of a handler code. */
  function HandlerFrom(code: u32): Handler
  {
    if code == 0x76696465 then VideoHandler
    else if code == 0x736f756e then AudioHandler
    else if code == 0x68696e74 then HintHandler
    else if code == 0x6d657461 then MetadataHandler
    else if code == 0x74657874 then TextHandler
    else UnknownHandler
  }

  const NAME_LIMIT: nat := 255

  function Characters(s: string): (b: seq<byte>)
    requires forall i :: 0 <= i < |s| ==> (s[i] as int) < 0x100
    ensures |b| == |s|
  {
    seq(|s|, i requires 0 <= i < |s| => s[i] as int)
  }

  function DefaultName(kind: J.TrackType): seq<byte>
  {
    match kind
    case Video => Characters("VideoHandler")
    case Audio => Characters("SoundHandler")
    case Timed => Characters("TimedMetadata")
    case Chapters => Characters("Chapters")
  }

  /** The name of the track, or of its type if it has none or one that is too long. */
  function HandlerName(kind: J.TrackType, name: seq<byte>): (n: seq<byte>)
    ensures |n| < NAME_LIMIT
  {
    if 0 < |name| < NAME_LIMIT then name else DefaultName(kind)
  }

  function HdlrWords(kind: J.TrackType): (w: seq<u32>)
    ensures |w| == 6
  {
    [0, 0, HandlerCode(kind), 0, 0, 0]
  }

  /** A list of metadata has keys of its own, or entries that say what they are. */
  function MetaHdlrWords(tagged: bool): (w: seq<u32>)
    ensures |w| == 6
  {
    if tagged then [0, MHLR, MDIR, APPL, 0, 0] else [0, 0, MDTA, 0, 0, 0]
  }

  /** Each key with its size and its namespace. */
  function KeyBytes(keys: seq<seq<byte>>): (b: seq<byte>)
    ensures |b| >= 8 * |keys|
  {
    if keys == [] then [] else BE32((8 + |keys[0]|) % TWO32) + (BE32(MDTA) + (keys[0] + KeyBytes(keys[1..])))
  }

  /** The language of a location. */
  const LANGUAGE: u16 := 0x55c4

  /** The words a box starts with, after its header, and what follows them. */
  function FixedWords(h: HeaderBox): seq<u32>
  {
    match h
    case Mvhd(created, modified, timescale, duration, tracks) => MvhdWords(created, modified, timescale, duration, tracks)
    case Tkhd(flags, created, modified, id, duration, audio, width, height) => TkhdWords(flags, created, modified, id, duration, audio, width, height)
    case Tref(reference, ids) => TrefWords(reference, ids, |ids|)
    case Mdhd(created, modified, timescale, duration) => MdhdWords(created, modified, timescale, duration)
    case Hdlr(kind, _) => HdlrWords(kind)
    case Stsd(_, _, _, _) => []
    case MetaHdlr(tagged) => MetaHdlrWords(tagged)
    case Keys(keys) => [0, |keys| % TWO32]
    case Data(format, _) => [format, 0]
    case Location(value) => [|value| % 0x1_0000 * 0x1_0000 + LANGUAGE]
  }

  /** The muxer can write the box. */
  predicate Writable(h: HeaderBox)
  {
    h.Stsd? ==> Describable(h.kind, h.config)
  }

  function Variable(h: HeaderBox): seq<byte>
    requires Writable(h)
  {
    match h
    case Hdlr(kind, name) => HandlerName(kind, name) + [0]
    case Stsd(kind, config, id, info) => StsdContent(kind, config, id, info)
    case MetaHdlr(_) => [0]
    case Keys(keys) => KeyBytes(keys)
    case Data(_, value) => value
    case Location(value) => value
    case _ => []
  }

  function HeaderContent(h: HeaderBox): seq<byte>
    requires Writable(h)
  {
    WordBytes(FixedWords(h)) + Variable(h)
  }

  /** How many bytes are written before the writer gives up, if it does. */
  function Cut(h: HeaderBox): Option<nat>
  {
    if Writable(h) then None else Some(StsdCut(h.kind, h.config))
  }

  // ---------- boxes of constant content ----------

  /** The content of the box that says what kind of media a track has. */
  function MediaContent(kind: J.TrackType): seq<byte>
  {
    match kind
    case Video => BE32(1) + Zeros(8)
    case Audio => Zeros(8)
    case Timed => Zeros(4)
    case Chapters => BE32(24) + (BE32(GMIN) + (Zeros(4) + (BE16(0x40) + (BE16(0x8000) + (BE16(0x8000) + (BE16(0x8000) + Zeros(4)))))))
  }

  /** The media data is in this file. */
  const DREF_WORDS: seq<u32> := [0, 1, 12, URL, 1]

  // ---------- references read back ----------

  const MAX_REFERENCES: nat := 10

  /** What the demuxer takes for references: up to ten words after the header of the first list, whatever they are. */
  function ReferencesRead(w: seq<u32>): seq<u32>
    requires |w| >= 2
  {
    w[2..Min(|w|, MAX_REFERENCES + 2)]
  }

  /**
     Because the muxer writes the whole list once for every reference in it, the
     demuxer finds the references that were written exactly when there is one of them
     or there are ten.
  */
  lemma ReferencesBack(reference: u32, ids: seq<u32>)
    requires 0 < |ids| <= MAX_REFERENCES
    ensures ReferencesRead(TrefWords(reference, ids, |ids|)) == ids <==> |ids| == 1 || |ids| == MAX_REFERENCES
  {
    var n := |ids|;
    var w := TrefWords(reference, ids, n);
    assert w == [(8 + 4 * n) % TWO32, reference] + ids + TrefWords(reference, ids, n - 1);
    assert |w| == n * (n + 2);
    if n == 1 {
      assert TrefWords(reference, ids, 0) == [];
    } else {
      assert |w| >= n + 4;
      assert w[2..n + 2] == ids;
    }
  }
}
