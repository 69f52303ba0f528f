/**
 The bytes of the decoder configuration boxes and of the sample descriptions around
 them: nested descriptors with lengths in groups of seven bits (section 7.2.6.5 of
 ISO/IEC 14496-1) for audio, parameter sets (sections 5.3.3.1 and 8.3.3.1 of ISO/IEC
 14496-15) for video.
 */
module ConfigBytes {
  import opened Bytes
  import opened Wrappers
  import J = JournalFormat

  const ESDS: u32 := 0x65736473

  const AVCC: u32 := 0x61766343

  /** The groups that are not the last, most significant first, each marked as continued. */
  function HighGroups(n: nat): seq<byte>
  {
    if n == 0 then [] else HighGroups(n / 128) + [128 + n % 128]
  }

  function Groups(n: nat): seq<byte>
  {
    HighGroups(n / 128) + [n % 128]
  }

  /** The value of groups, whatever their marks. */
  function Value(b: seq<byte>): nat
  {
    if b == [] then 0 else Value(b[..|b| - 1]) * 128 + b[|b| - 1] % 128
  }

  lemma {:induction false} HighValue(n: nat)
    ensures Value(HighGroups(n)) == n
    ensures forall i :: 0 <= i < |HighGroups(n)| ==> HighGroups(n)[i] >= 128
  {
    if n != 0 {
      HighValue(n / 128);
      assert HighGroups(n)[..|HighGroups(n)| - 1] == HighGroups(n / 128);
    }
  }

  lemma GroupsValue(n: nat)
    ensures Value(Groups(n)) == n && Groups(n)[|Groups(n)| - 1] < 128
    ensures forall i :: 0 <= i < |Groups(n)| - 1 ==> Groups(n)[i] >= 128
  {
    hide HighGroups;
    HighValue(n / 128);
    assert Groups(n)[..|Groups(n)| - 1] == HighGroups(n / 128);
  }

  /** The most a length of so many groups can say. */
  lemma {:induction false} HighCount(n: nat)
    ensures |HighGroups(n)| == 0 <==> n == 0
    ensures |HighGroups(n)| <= 1 <==> n < 0x80
    ensures |HighGroups(n)| <= 2 <==> n < 0x4000
    ensures |HighGroups(n)| <= 3 <==> n < 0x20_0000
    ensures |HighGroups(n)| <= 4 <==> n < 0x1000_0000
  {
    if n != 0 { HighCount(n / 128); }
  }

  /** The groups of a length, spelled out. */
  lemma GroupsUpTo4(n: nat)
    ensures 0 < n < 0x80 ==> Groups(n) == [n]
    ensures 0x80 <= n < 0x4000 ==> Groups(n) == [n / 0x80 % 128 + 128, n % 128]
    ensures 0x4000 <= n < 0x20_0000 ==> Groups(n) == [n / 0x4000 % 128 + 128, n / 0x80 % 128 + 128, n % 128]
    ensures 0x20_0000 <= n < 0x1000_0000 ==>
              Groups(n) == [n / 0x20_0000 % 128 + 128, n / 0x4000 % 128 + 128, n / 0x80 % 128 + 128, n % 128]
  {
    var a := n / 128;
    var b := a / 128;
    var c := b / 128;
    assert b == n / 0x4000 && c == n / 0x20_0000;
    assert HighGroups(0) == [];
    assert HighGroups(c) == HighGroups(c / 128) + if c == 0 then [] else [128 + c % 128];
    assert HighGroups(b) == HighGroups(c) + if b == 0 then [] else [128 + b % 128];
    assert HighGroups(a) == HighGroups(b) + if a == 0 then [] else [128 + a % 128];
  }

  function DcdSize(asc: seq<byte>): nat
  {
    |asc| + |Groups(|asc|)| + 14
  }

  function EsSize(asc: seq<byte>): nat
  {
    DcdSize(asc) + |Groups(DcdSize(asc))| + 4
  }

  const ZEROES := [0, 0, 0, 0, 0, 0, 0, 0, 0, 0, 0]

  /** The specific configuration and the header of its packets. */
  function DsiTail(dsi: nat, asc: seq<byte>): seq<byte>
  {
    [5] + (Groups(dsi) + (asc + [6, 1, 2]))
  }

  function DcdTail(dcd: nat, dsi: nat, asc: seq<byte>): seq<byte>
  {
    [4] + (Groups(dcd) + ([0x40, 0x15] + (ZEROES + DsiTail(dsi, asc))))
  }

  /** What follows the header of the box, with these lengths in the three descriptors. */
  function EsdsContent(es: nat, dcd: nat, dsi: nat, id: u16, asc: seq<byte>): seq<byte>
  {
    BE32(0) + ([3] + (Groups(es) + (BE16(id) + ([0] + DcdTail(dcd, dsi, asc)))))
  }

  /** The box: the length of each descriptor is that of its content. */
  function EsdsBytes(id: u16, asc: seq<byte>): seq<byte>
    requires 16 + EsSize(asc) + |Groups(EsSize(asc))| < TWO32
  {
    BE32(16 + EsSize(asc) + |Groups(EsSize(asc))|) + (BE32(ESDS) + EsdsContent(EsSize(asc), DcdSize(asc), |asc|, id, asc))
  }

  /** A configuration whose outermost length fits four groups. */
  predicate AscFits(asc: seq<byte>)
  {
    asc != [] && EsSize(asc) < 0x1000_0000
  }

  lemma GroupsShort(n: nat)
    requires n < 0x1000_0000
    ensures 1 <= |Groups(n)| <= 4
  {
    HighCount(n / 128);
  }

  lemma FitsBox(asc: seq<byte>)
    requires AscFits(asc)
    ensures 16 + EsSize(asc) + |Groups(EsSize(asc))| < TWO32
  {
    GroupsShort(EsSize(asc));
  }

  lemma EsdsLength(id: u16, asc: seq<byte>)
    requires 16 + EsSize(asc) + |Groups(EsSize(asc))| < TWO32
    ensures |EsdsBytes(id, asc)| == 16 + EsSize(asc) + |Groups(EsSize(asc))|
    ensures |EsdsContent(EsSize(asc), DcdSize(asc), |asc|, id, asc)| == 8 + EsSize(asc) + |Groups(EsSize(asc))|
  {
    hide BE32, BE16, Groups;
  }

  /** The sizes as the writer computes them, in 32 bits; they are right when the configuration fits. */
  lemma WrappedSizes(asc: seq<byte>, dcd: u32, es: u32)
    requires |asc| < TWO32 && dcd == (|asc| + |HighGroups(|asc|)| + 14) % TWO32 && es == (dcd + |HighGroups(dcd)| + 4) % TWO32
    ensures AscFits(asc) ==> dcd == DcdSize(asc) && es == EsSize(asc) && 0 < dcd < 0x1000_0000 && 0 < |asc| < 0x1000_0000
    ensures AscFits(asc) ==> 0 < es < 0x1000_0000
    ensures 0 < |asc| < 0x1000_0000 && 0 < dcd < 0x1000_0000 && es < 0x1000_0000 ==> AscFits(asc)
    ensures 0 < |asc| < 0x1000_0000 && 0 < dcd < 0x1000_0000 && es < 0x1000_0000 ==> dcd == DcdSize(asc) && es == EsSize(asc)
  {
    hide HighGroups, Groups;
    HighCount(|asc|);
    HighCount(dcd);
    if asc != [] { GroupsOf(|asc|); }
    if dcd > 0 { GroupsOf(dcd); }
    if DcdSize(asc) < TWO32 { GroupsOf(DcdSize(asc)); }
  }

  lemma GroupsOf(n: nat)
    requires n > 0
    ensures |Groups(n)| == |HighGroups(n)|
  {
  }

  lemma EmptyNeverFits()
    ensures !AscFits([])
  {
  }

  lemma ValueNext(b: seq<byte>, k: nat)
    requires k < |b|
    ensures Value(b[..k + 1]) == Value(b[..k]) * 128 + b[k] % 128
  {
    assert b[..k + 1][..k] == b[..k];
  }

  lemma EmptyValue(b: seq<byte>)
    ensures Value(b[..0]) == 0
  {
  }

  lemma TailLength(asc: seq<byte>)
    ensures |DsiTail(|asc|, asc)| == |asc| + |Groups(|asc|)| + 4 == DcdSize(asc) - 10
  {
    hide Groups;
  }

  lemma DcdLength(asc: seq<byte>)
    requires AscFits(asc)
    ensures |DcdTail(DcdSize(asc), |asc|, asc)| == DcdSize(asc) + |Groups(DcdSize(asc))| + 4 == EsSize(asc)
    ensures 0 < |asc| < 0x1000_0000 && DcdSize(asc) < 0x1000_0000
  {
    hide Groups;
    TailLength(asc);
  }

  const SET_MAX: nat := 0xFFFF

  /** One parameter set, after its length of 16 bits. */
  function SetBytes(nal: seq<byte>): seq<byte>
  {
    BE16(|nal| % 0x1_0000) + nal
  }

  /** One set of each kind; the number of the second comes between them. */
  function SetsTail(sps: seq<byte>, pps: seq<byte>): (b: seq<byte>)
    ensures |b| == 5 + |sps| + |pps|
  {
    SetBytes(sps) + ([1] + SetBytes(pps))
  }

  /** What follows the header of the box: profile and level come from the sequence parameter set. */
  function AvccContent(sps: seq<byte>, pps: seq<byte>): (b: seq<byte>)
    requires |sps| >= 4
    ensures |b| == 11 + |sps| + |pps|
  {
    [1, sps[1], sps[2], sps[3]] + ([0xff, 0xe1] + SetsTail(sps, pps))
  }

  function AvccBytes(sps: seq<byte>, pps: seq<byte>): (b: seq<byte>)
    requires |sps| >= 4
    ensures |b| == 19 + |sps| + |pps|
  {
    BE32((19 + |sps| + |pps|) % TWO32) + (BE32(AVCC) + AvccContent(sps, pps))
  }

  lemma CountsWord()
    ensures BE16(0xffe1) == [0xff, 0xe1]
  {
  }

  function Zeros(n: nat): (b: seq<byte>)
    ensures |b| == n
  {
    seq(n, _ => 0)
  }

  const HVCC: u32 := 0x68766343
  const HVCC_INFO: nat := 22

  /** One parameter set of one kind. */
  function HvccArray(code: byte, nal: seq<byte>): (b: seq<byte>)
    ensures |b| == 5 + |nal|
  {
    [code] + (BE16(1) + SetBytes(nal))
  }

  /** Profile, level and format, and then the sets by kind. */
  function HvccContent(info: seq<byte>, vps: seq<byte>, sps: seq<byte>, pps: seq<byte>): (b: seq<byte>)
    ensures |b| == |info| + 16 + |vps| + |sps| + |pps|
  {
    info + ([3] + (HvccArray(0xA0, vps) + (HvccArray(0xA1, sps) + HvccArray(0xA2, pps))))
  }

  function HvccBytes(info: seq<byte>, vps: seq<byte>, sps: seq<byte>, pps: seq<byte>): (b: seq<byte>)
    ensures |b| == 24 + |info| + |vps| + |sps| + |pps|
  {
    BE32((24 + |info| + |vps| + |sps| + |pps|) % TWO32) + (BE32(HVCC) + HvccContent(info, vps, sps, pps))
  }

  // ---------- sample descriptions ----------

  const MP4A: u32 := 0x6d703461
  const METT: u32 := 0x6d657474
  const TEXT: u32 := 0x74657874

  /** What a video entry says before the decoder configuration. */
  function VisualWords(width: u32, height: u32): (w: seq<u32>)
    ensures |w| == 10
  {
    [0, 1, 0, 0, 0, 0, width % 0x1_0000 * 0x1_0000 + height % 0x1_0000, 0x480000, 0x480000, 0]
  }

  function VisualHead(width: u32, height: u32): (b: seq<byte>)
    ensures |b| == 78
  {
    WordBytes(VisualWords(width, height)) + (BE16(1) + (Zeros(32) + BE32(0x18ffff)))
  }

  /** An audio entry says stereo and 16 bits, whatever was set. */
  function AudioWords(rate: u32): (w: seq<u32>)
    ensures |w| == 7
  {
    [0, 1, 0, 0, 0x2_0010, 0, rate]
  }

  function AudioHead(rate: u32): (b: seq<byte>)
    ensures |b| == 28
  {
    WordBytes(AudioWords(rate))
  }

  /** An entry of a sample description: its size, its type and the rest. */
  function Entry(kind: u32, b: seq<byte>): (e: seq<byte>)
    ensures |e| == 8 + |b|
  {
    BE32((8 + |b|) % TWO32) + (BE32(kind) + b)
  }

  /** A string as it is written: too long a one counts as empty. */
  function Text(s: seq<byte>): (t: seq<byte>)
    ensures |t| <= 0x1_0000
  {
    (if |s| < 0xFFFF then s else []) + [0]
  }

  function TextEntry(): (b: seq<byte>)
    ensures |b| == 51
  {
    Zeros(6) + (BE16(1) + (BE32(1) + (Zeros(32) + [0xff, 0xff, 0xff, 0xff, 0xff, 0xff, 0])))
  }

  /** The muxer can write the sample description. */
  predicate Describable(kind: J.TrackType, c: J.Config)
  {
    match kind
    case Video => (c.Avc? || c.Hevc?) && |c.sps| >= 4
    case Audio => c.Aac? && AscFits(c.asc)
    case _ => true
  }

  /** The decoder configuration box of a video track. */
  function CodecKind(c: J.Config): u32
  {
    if c.Avc? then AVCC else HVCC
  }

  function CodecContent(c: J.Config, info: seq<byte>): seq<byte>
    requires Describable(J.Video, c)
  {
    if c.Avc? then AvccContent(c.sps, c.pps) else HvccContent(info, c.vps, c.sps, c.pps)
  }

  function CodecBytes(c: J.Config, info: seq<byte>): seq<byte>
    requires Describable(J.Video, c)
  {
    if c.Avc? then AvccBytes(c.sps, c.pps) else HvccBytes(info, c.vps, c.sps, c.pps)
  }

  /** The one entry of the description of a track. */
  function EntryOf(kind: J.TrackType, c: J.Config, id: nat, info: seq<byte>): seq<byte>
    requires Describable(kind, c)
  {
    match kind
    case Video =>
      Entry(if c.Avc? then J.AVC1 else J.HVC1, VisualHead(c.width, c.height) + CodecBytes(c, info))
    case Audio =>
      FitsBox(c.asc);
      Entry(MP4A, AudioHead(c.sampleRate) + EsdsBytes(id % 0x1_0000, c.asc))
    case Timed =>
      Entry(METT, Zeros(6) + (BE16(1) + (if c.Mime? then Text(c.encoding) + Text(c.mime) else [0, 0])))
    case Chapters =>
      Entry(TEXT, TextEntry())
  }

  /** What follows the header of the sample description box: one entry. */
  function StsdContent(kind: J.TrackType, c: J.Config, id: nat, info: seq<byte>): seq<byte>
    requires Describable(kind, c)
  {
    WordBytes([0, 1]) + EntryOf(kind, c, id, info)
  }

  /** How much of the audio configuration box is written before its writer gives up, by the sizes it computes in 32 bits. */
  function EsdsCut(asc: seq<byte>): nat
  {
    var dcd: u32 := (|asc| + |HighGroups(|asc|)| + 14) % TWO32;
    var es: u32 := (dcd + |HighGroups(dcd)| + 4) % TWO32;
    if asc == [] || |HighGroups(es)| > 4 then 0 else 8 + ContentCut(es, dcd)
  }

  /** After the header of the box: the first length that is not one to four groups long. */
  function ContentCut(es: u32, dcd: u32): nat
  {
    if !GroupsFit(es) then 5 else 8 + |Groups(es)| + DcdCut(dcd)
  }

  function DcdCut(dcd: u32): nat
  {
    if !GroupsFit(dcd) then 1 else 15 + |Groups(dcd)|
  }

  predicate GroupsFit(n: nat)
  {
    0 < n < 0x1000_0000
  }

  /** How much of the sample description is written before its writer gives up. */
  function StsdCut(kind: J.TrackType, c: J.Config): nat
  {
    16 + match kind
         case Video => if c.Avc? || c.Hevc? then 86 else 4
         case Audio => 36 + if c.Aac? then EsdsCut(c.asc) else 0
         case _ => 0
  }

  // ---------- what a description tells the demuxer ----------

  /** What the handler box says a track is. */
  datatype Handler = UnknownHandler | VideoHandler | AudioHandler | HintHandler | MetadataHandler | TextHandler

  function HandlerOf(kind: J.TrackType): Handler
  {
    match kind
    case Video => VideoHandler
    case Audio => AudioHandler
    case Timed => MetadataHandler
    case Chapters => TextHandler
  }

  datatype Codec = NoCodec | AvcCodec | HevcCodec

  /** The parameter sets of a video track, as far as they have been read. */
  datatype Sets = Sets(sps: Option<seq<byte>>, pps: Option<seq<byte>>, vps: Option<seq<byte>>)

  const NO_SETS := Sets(None, None, None)

  datatype Desc = Desc(codec: Codec, sets: Sets, width: nat, height: nat, asc: Option<seq<byte>>, channels: nat, sampleSize: nat, rate: u32)

  const NO_DESC := Desc(NoCodec, NO_SETS, 0, 0, None, 0, 0, 0)

  predicate ShortSet(s: Option<seq<byte>>)
  {
    s.Some? ==> |s.value| <= SET_MAX
  }

  /** Every length that can be read fits 16 bits. */
  predicate ShortSets(s: Sets)
  {
    ShortSet(s.sps) && ShortSet(s.pps) && ShortSet(s.vps)
  }

  /** The lengths of the parameter sets fit 16 bits. */
  predicate Carried(kind: J.TrackType, c: J.Config)
  {
    kind.Video? ==>
      && (c.Avc? || c.Hevc? ==> |c.sps| <= SET_MAX && |c.pps| <= SET_MAX)
      && (c.Hevc? ==> |c.vps| <= SET_MAX)
  }

  /** An empty set is none. */
  function SetOf(nal: seq<byte>): Option<seq<byte>>
  {
    if nal == [] then None else Some(nal)
  }

  function Told(kind: J.TrackType, c: J.Config): Desc
  {
    match kind
    case Video =>
      if c.Avc? then
        NO_DESC.(codec := AvcCodec, sets := Sets(SetOf(c.sps), SetOf(c.pps), None), width := c.width % 0x1_0000, height := c.height % 0x1_0000)
      else if c.Hevc? then
        NO_DESC.(codec := HevcCodec, sets := Sets(SetOf(c.sps), SetOf(c.pps), SetOf(c.vps)),
                 width := c.width % 0x1_0000, height := c.height % 0x1_0000)
      else NO_DESC
    case Audio => if c.Aac? then NO_DESC.(asc := Some(c.asc), channels := 2, sampleSize := 16, rate := c.sampleRate) else NO_DESC
    case _ => NO_DESC
  }

  /** A set too long for its length field is never read back whole. */
  lemma NotCarried(kind: J.TrackType, c: J.Config, d: Desc)
    requires ShortSets(d.sets) && !Carried(kind, c)
    ensures d != Told(kind, c)
  {
  }
}
