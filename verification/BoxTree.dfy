/**
 The boxes of a media file (section 4.2 of ISO/IEC 14496-12) as a tree, and the
 bytes each tree stands for. The sample table boxes keep their entries, the header
 boxes their fields; boxes that tell the demuxer nothing are opaque.
 */
module BoxTree {
  import opened Bytes
  import opened Wrappers
  import opened TimeTable
  import opened ChunkMap
  import opened HeaderBoxes
  import opened ConfigBytes

  const FTYP: u32 := 0x66747970
  const FREE: u32 := 0x66726565
  const MDAT: u32 := 0x6d646174
  const MOOV: u32 := 0x6d6f6f76
  const UDTA: u32 := 0x75647461
  const TRAK: u32 := 0x7472616b
  const MDIA: u32 := 0x6d646961
  const MINF: u32 := 0x6d696e66
  const DINF: u32 := 0x64696e66
  const STBL: u32 := 0x7374626c
  const STTS: u32 := 0x73747473
  const STSS: u32 := 0x73747373
  const STSZ: u32 := 0x7374737a
  const STSC: u32 := 0x73747363
  const STCO: u32 := 0x7374636f
  const CO64: u32 := 0x636f3634
  const META: u32 := 0x6d657461
  const ILST: u32 := 0x696c7374
  const UUID: u32 := 0x75756964
  const ROOT: u32 := 0x726f6f74

  datatype Table =
    | Stts(times: seq<TtsEntry>)
    | Stss(numbers: seq<u32>)
    | Stsz(sizes: seq<u32>)
    | Stsc(chunks: seq<StcEntry>)
    | Stco(offsets: seq<u64>)

  datatype Box =
    | Container(kind: u32, children: seq<Box>)
    | Full(kind: u32, children: seq<Box>)   // with version and flags before the children
    | Opaque(kind: u32, payload: seq<byte>)
    | Large(kind: u32, payload: seq<byte>)  // with a 64-bit size field
    | Table(table: Table)
    | Header(header: HeaderBox)             // what the movie and its tracks are

  // ---------- sample tables as 32-bit words ----------

  /** The 64-bit form is used as soon as one offset needs it. */
  predicate Wide(offsets: seq<u64>)
  {
    exists i :: 0 <= i < |offsets| && offsets[i] > U32_MAX
  }

  predicate IsTable(kind: u32)
  {
    kind == STTS || kind == STSS || kind == STSZ || kind == STSC || kind == STCO || kind == CO64
  }

  function Kind(t: Table): (kind: u32)
    ensures IsTable(kind) && (kind == STSZ <==> t.Stsz?)
  {
    match t
    case Stts(_) => STTS
    case Stss(_) => STSS
    case Stsz(_) => STSZ
    case Stsc(_) => STSC
    case Stco(offsets) => if Wide(offsets) then CO64 else STCO
  }

  function Count(t: Table): nat
  {
    match t
    case Stts(es) => |es|
    case Stss(es) => |es|
    case Stsz(es) => |es|
    case Stsc(es) => |es|
    case Stco(es) => |es|
  }

  /** Words per entry, by box type. */
  function Stride(kind: u32): nat
  {
    if kind == STTS || kind == CO64 then 2 else if kind == STSC then 3 else 1
  }

  /** The entries of a table, word by word. */
  function EntryWords(t: Table): (w: seq<u32>)
    ensures |w| == Stride(Kind(t)) * Count(t)
  {
    match t
    case Stts(es) => seq(2 * |es|, j requires 0 <= j < 2 * |es| => if j % 2 == 0 then es[j / 2].count else es[j / 2].delta)
    case Stss(es) => es
    case Stsz(es) => es
    case Stsc(es) =>
      seq(3 * |es|, j requires 0 <= j < 3 * |es| =>
        if j % 3 == 0 then es[j / 3].firstChunk
        else if j % 3 == 1 then es[j / 3].samplesPerChunk
        else es[j / 3].description)
    case Stco(es) =>
      if Wide(es) then seq(2 * |es|, j requires 0 <= j < 2 * |es| => if j % 2 == 0 then es[j / 2] / TWO32 else es[j / 2] % TWO32)
      else seq(|es|, j requires 0 <= j < |es| => es[j] % TWO32)
  }

  /** The table a list of entry words stands for. */
  function FromWords(kind: u32, count: nat, w: seq<u32>): Table
    requires IsTable(kind)
    requires |w| == Stride(kind) * count
  {
    if kind == STTS then Stts(seq(count, i requires 0 <= i < count => TtsEntry(w[2 * i], w[2 * i + 1])))
    else if kind == STSS then Stss(w)
    else if kind == STSZ then Stsz(w)
    else if kind == STSC then Stsc(seq(count, i requires 0 <= i < count => StcEntry(w[3 * i], w[3 * i + 1], w[3 * i + 2])))
    else if kind == STCO then Stco(seq(count, i requires 0 <= i < count => w[i]))
    else Stco(seq(count, i requires 0 <= i < count => w[2 * i] * TWO32 + w[2 * i + 1]))
  }

  lemma SttsWords(es: seq<TtsEntry>)
    ensures FromWords(STTS, |es|, EntryWords(Stts(es))) == Stts(es)
  {
    var w := EntryWords(Stts(es));
    var back := seq(|es|, i requires 0 <= i < |es| => TtsEntry(w[2 * i], w[2 * i + 1]));
    assert back == es;
  }

  lemma StscWords(es: seq<StcEntry>)
    ensures FromWords(STSC, |es|, EntryWords(Stsc(es))) == Stsc(es)
  {
    var w := EntryWords(Stsc(es));
    var back := seq(|es|, i requires 0 <= i < |es| => StcEntry(w[3 * i], w[3 * i + 1], w[3 * i + 2]));
    assert back == es;
  }

  lemma NarrowWords(es: seq<u64>)
    requires !Wide(es)
    ensures FromWords(STCO, |es|, EntryWords(Stco(es))) == Stco(es)
  {
    var w := EntryWords(Stco(es));
    var back: seq<u64> := seq(|es|, i requires 0 <= i < |es| => w[i]);
    assert back == es;
  }

  lemma WideWords(es: seq<u64>)
    requires Wide(es)
    ensures FromWords(CO64, |es|, EntryWords(Stco(es))) == Stco(es)
  {
    var w := EntryWords(Stco(es));
    var back: seq<u64> := seq(|es|, i requires 0 <= i < |es| => w[2 * i] * TWO32 + w[2 * i + 1]);
    assert back == es;
  }

  /** Splitting a table into words loses nothing. */
  lemma WordsRoundTrip(t: Table)
    ensures FromWords(Kind(t), Count(t), EntryWords(t)) == t
  {
    match t {
      case Stts(es) => SttsWords(es);
      case Stss(es) =>
      case Stsz(es) =>
      case Stsc(es) => StscWords(es);
      case Stco(es) => if Wide(es) { WideWords(es); } else { NarrowWords(es); }
    }
  }

  /** What comes before the entries: version and flags, the common sample size of stsz, the count. */
  function HeaderWords(t: Table): (w: seq<u32>)
    requires Count(t) < TWO32
    ensures |w| == (if t.Stsz? then 3 else 2) && w[|w| - 1] == Count(t) && (t.Stsz? ==> w[1] == 0)
  {
    if t.Stsz? then [0, 0, Count(t)] else [0, Count(t)]
  }

  /** A table too large for 32-bit box sizes is not written by the muxer nor read by the demuxer. */
  const MAX_ENTRY_COUNT: nat := 10000000

  /** A table as the muxer writes it: an empty one is not written at all. */
  function TableBytes(t: Table): seq<byte>
    requires Count(t) <= MAX_ENTRY_COUNT
  {
    if Count(t) == 0 then []
    else
      var w := HeaderWords(t) + EntryWords(t);
      BE32(8 + 4 * |w|) + BE32(Kind(t)) + WordBytes(w)
  }

  // ---------- trees ----------

  /** Every table of the tree is within the entry limit. */
  predicate Bounded(b: Box)
    decreases b
  {
    match b
    case Container(_, cs) => AllBounded(cs)
    case Full(_, cs) => AllBounded(cs)
    case Table(t) => Count(t) <= MAX_ENTRY_COUNT
    case Large(_, p) => |p| + 16 < TWO64
    case Header(h) => h.Stsd? && h.config.Aac? ==> |h.config.asc| < TWO32
    case _ => true
  }

  predicate AllBounded(bs: seq<Box>)
    decreases bs
  {
    forall b | b in bs :: Bounded(b)
  }

  /** The bytes of a box; its 32-bit size field counts its header and its payload. */
  function BoxBytes(b: Box): seq<byte>
    requires Bounded(b)
    decreases b
  {
    match b
    case Container(kind, cs) =>
      var p := AllBytes(cs);
      BE32((8 + |p|) % TWO32) + BE32(kind) + p
    case Full(kind, cs) =>
      var p := AllBytes(cs);
      BE32((12 + |p|) % TWO32) + BE32(kind) + (BE32(0) + p)
    case Opaque(kind, p) => BE32((8 + |p|) % TWO32) + BE32(kind) + p
    case Large(kind, p) => BE32(1) + BE32(kind) + BE64(16 + |p|) + p
    case Table(t) => TableBytes(t)
    case Header(h) => HeaderBytes(h)
  }

  /** The bytes of a header box; what cannot be written has none. */
  function HeaderBytes(h: HeaderBox): seq<byte>
  {
    if Writable(h) then Entry(HeaderKind(h), HeaderContent(h)) else []
  }

  function AllBytes(bs: seq<Box>): seq<byte>
    requires AllBounded(bs)
    decreases bs
  {
    if bs == [] then [] else BoxBytes(bs[0]) + AllBytes(bs[1..])
  }

  lemma {:induction false} AllBytesAppend(a: seq<Box>, b: seq<Box>)
    requires AllBounded(a) && AllBounded(b)
    ensures AllBounded(a + b)
    ensures AllBytes(a + b) == AllBytes(a) + AllBytes(b)
  {
    if a == [] {
      assert a + b == b;
    } else {
      assert (a + b)[1..] == a[1..] + b;
      AllBytesAppend(a[1..], b);
    }
  }

  lemma AllBytesOne(b: Box)
    requires Bounded(b)
    ensures AllBytes([b]) == BoxBytes(b)
  {
    assert [b][1..] == [];
  }

  /** The bytes of the first boxes of a list, and of one more. */
  lemma AllBytesNext(bs: seq<Box>, k: nat)
    requires AllBounded(bs) && k < |bs|
    ensures AllBounded(bs[..k]) && AllBounded(bs[..k + 1]) && AllBounded(bs[k + 1..])
    ensures AllBytes(bs[..k + 1]) == AllBytes(bs[..k]) + BoxBytes(bs[k])
    ensures AllBytes(bs) == AllBytes(bs[..k + 1]) + AllBytes(bs[k + 1..])
  {
    hide BoxBytes, Bounded, AllBytes;
    assert bs[..k + 1] == bs[..k] + [bs[k]];
    AllBytesAppend(bs[..k], [bs[k]]);
    AllBytesOne(bs[k]);
    assert bs == bs[..k + 1] + bs[k + 1..];
    AllBytesAppend(bs[..k + 1], bs[k + 1..]);
  }

  // ---------- writers that give up ----------

  /** How many bytes are written before the first writer of the tree gives up, if one does. */
  function Refusal(b: Box): Option<nat>
    requires Bounded(b)
    decreases b
  {
    match b
    case Container(_, cs) => After(8, RefusalAll(cs))
    case Full(_, cs) => After(12, RefusalAll(cs))
    case Header(h) => Cut(h)
    case _ => None
  }

  function After(n: nat, r: Option<nat>): Option<nat>
  {
    if r.None? then None else Some(n + r.value)
  }

  function RefusalAll(bs: seq<Box>): Option<nat>
    requires AllBounded(bs)
    decreases bs
  {
    if bs == [] then None
    else if Refusal(bs[0]).Some? then Refusal(bs[0])
    else After(|BoxBytes(bs[0])|, RefusalAll(bs[1..]))
  }

  lemma {:induction false} RefusalAppend(a: seq<Box>, b: seq<Box>)
    requires AllBounded(a) && AllBounded(b)
    ensures AllBounded(a + b)
    ensures RefusalAll(a + b) == if RefusalAll(a).Some? then RefusalAll(a) else After(|AllBytes(a)|, RefusalAll(b))
  {
    hide BoxBytes, Bounded, Refusal;
    if a == [] {
      assert a + b == b;
    } else {
      assert (a + b)[1..] == a[1..] + b;
      RefusalAppend(a[1..], b);
    }
  }

  lemma RefusalOne(b: Box)
    requires Bounded(b)
    ensures AllBounded([b]) && RefusalAll([b]) == Refusal(b)
  {
    assert [b][1..] == [];
  }

  /** The first boxes of a list that nobody refuses, and one more. */
  lemma RefusalNext(bs: seq<Box>, k: nat)
    requires AllBounded(bs) && k < |bs| && AllBounded(bs[..k]) && RefusalAll(bs[..k]).None?
    ensures AllBounded(bs[..k + 1])
    ensures RefusalAll(bs[..k + 1]) == After(|AllBytes(bs[..k])|, Refusal(bs[k]))
    ensures RefusalAll(bs[..k + 1]).Some? ==> RefusalAll(bs) == RefusalAll(bs[..k + 1])
    ensures RefusalAll(bs[..k + 1]).None? && RefusalAll(bs).Some? ==> RefusalAll(bs).value >= |AllBytes(bs[..k + 1])|
  {
    hide BoxBytes, Bounded, Refusal, RefusalAll;
    AllBytesNext(bs, k);
    assert bs[..k + 1] == bs[..k] + [bs[k]];
    RefusalOne(bs[k]);
    RefusalAppend(bs[..k], [bs[k]]);
    assert bs == bs[..k + 1] + bs[k + 1..];
    RefusalAppend(bs[..k + 1], bs[k + 1..]);
  }
}
