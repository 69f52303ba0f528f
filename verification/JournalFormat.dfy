/**
 The recovery journal: its records, their bytes, and what replaying them does to
 the tables of a recovered recording. Fields are in host byte order. `P32(x, t)`,
 `P64(x, t)` and their like are the bytes of `x` followed by the bytes `t`.
 */
module JournalFormat {
  import opened Bytes
  import opened Wrappers
  import opened TimeTable
  import opened ChunkMap
  import opened Metadata

  const MAGIC: u32 := 0x5245434F
  const VERSION: u32 := 3
  const MAX_ITEM_NUMBER: nat := 1000000
  const MAX_ALLOC_SIZE: nat := 10000000
  const EPOCH_OFFSET: u64 := 0x7c25b080

  // the tags of the records, and of the two video codecs
  const TRAK: u32 := 0x7472616b
  const STSD: u32 := 0x73747364
  const STTS: u32 := 0x73747473
  const STSS: u32 := 0x73747373
  const STSC: u32 := 0x73747363
  const STSZ: u32 := 0x7374737a
  const STCO: u32 := 0x7374636f
  const CO64: u32 := 0x636f3634
  const META: u32 := 0x6d657461
  const COVR: u32 := 0x636f7672
  const AVC1: u32 := 0x61766331
  const HVC1: u32 := 0x68766331

  datatype TrackType = Video | Audio | Timed | Chapters

  /** The library's numbers for the track types it accepts when a track is added. */
  function TypeCode(t: TrackType): u32
  {
    match t
    case Video => 1
    case Audio => 2
    case Timed => 4
    case Chapters => 6
  }

  function TypeFromCode(c: u32): Option<TrackType>
  {
    if c == 1 then Some(Video)
    else if c == 2 then Some(Audio)
    else if c == 4 then Some(Timed)
    else if c == 6 then Some(Chapters)
    else None
  }

  datatype TrackInfo = TrackInfo(kind: TrackType, name: seq<byte>, flags: u32, timescale: u32, created: u64, modified: u64)

  datatype Config =
    | Avc(sps: seq<byte>, pps: seq<byte>, width: u32, height: u32)
    | Hevc(sps: seq<byte>, pps: seq<byte>, vps: seq<byte>, width: u32, height: u32)
    | Aac(codec: u32, asc: seq<byte>, channels: u32, sampleSize: u32, sampleRate: u32)
    | Mime(encoding: seq<byte>, mime: seq<byte>)
    | NoConfig

  datatype Sample = Sample(size: u32, offset: u64, dts: u64)

  datatype Record =
    | Trak(handle: u32, info: TrackInfo, refs: seq<byte>)
    | Stsd(handle: u32, config: Config)
    | Stts(handle: u32, times: seq<TtsEntry>)
    | Stss(handle: u32, numbers: seq<u32>)
    | Stsc(handle: u32, chunks: seq<StcEntry>)
    | Stsz(handle: u32, samples: seq<Sample>)
    | Stco(handle: u32, wide: bool, offsets: seq<u64>)
    | MetaItem(handle: u32, storage: u32, meta: Meta)
    | Cover(kind: u32, data: seq<byte>)

  // ---------- bytes ----------

  function P32(x: u32, t: seq<byte>): seq<byte> { LE32(x) + t }

  function P64(x: u64, t: seq<byte>): seq<byte> { LE64(x) + t }

  /** A length of 32 bits and the bytes. */
  function PArr32(b: seq<byte>, t: seq<byte>): seq<byte> { P32(|b| % TWO32, b + t) }

  /** A length of the host's size type and the bytes. */
  function PArr64(b: seq<byte>, t: seq<byte>): seq<byte> { P64(|b| % TWO64, b + t) }

  function PTts(e: TtsEntry, t: seq<byte>): seq<byte> { P32(e.count, P32(e.delta, t)) }

  function PStc(e: StcEntry, t: seq<byte>): seq<byte> { P32(e.firstChunk, P32(e.samplesPerChunk, P32(e.description, t))) }

  function PSample(e: Sample, t: seq<byte>): seq<byte> { P32(e.size, P64(e.offset, P64(e.dts, t))) }

  function PList<T>(put: (T, seq<byte>) -> seq<byte>, es: seq<T>, t: seq<byte>): seq<byte>
  {
    if es == [] then t else put(es[0], PList(put, es[1..], t))
  }

  function Tag(r: Record): u32
  {
    match r
    case Trak(_, _, _) => TRAK
    case Stsd(_, _) => STSD
    case Stts(_, _) => STTS
    case Stss(_, _) => STSS
    case Stsc(_, _) => STSC
    case Stsz(_, _) => STSZ
    case Stco(_, wide, _) => if wide then CO64 else STCO
    case MetaItem(_, _, _) => META
    case Cover(_, _) => COVR
  }

  /** How many items a record announces. */
  function Number(r: Record): nat
  {
    match r
    case Stts(_, es) => |es|
    case Stss(_, es) => |es|
    case Stsc(_, es) => |es|
    case Stsz(_, es) => |es|
    case Stco(_, _, es) => |es|
    case _ => 1
  }

  function HandleOf(r: Record): u32
  {
    if r.Cover? then 0 else r.handle
  }

  function PConfig(c: Config, t: seq<byte>): seq<byte>
  {
    match c
    case Avc(sps, pps, w, h) => P32(AVC1, PArr64(sps, PArr64(pps, P32(w, P32(h, t)))))
    case Hevc(sps, pps, vps, w, h) => P32(HVC1, PArr64(sps, PArr64(pps, PArr64(vps, P32(w, P32(h, t))))))
    case Aac(codec, asc, channels, size, rate) => P32(codec, PArr32(asc, P32(channels, P32(size, P32(rate, t)))))
    case Mime(encoding, mime) => PArr32(encoding, PArr32(mime, t))
    case NoConfig => t
  }

  function PInfo(i: TrackInfo, t: seq<byte>): seq<byte>
  {
    P32(TypeCode(i.kind), PArr32(i.name, P32(i.flags, P32(i.timescale, P64(i.created, P64(i.modified, t))))))
  }

  function PBody(r: Record, t: seq<byte>): seq<byte>
  {
    match r
    case Trak(_, info, refs) => PInfo(info, PArr64(refs, t))
    case Stsd(_, config) => PConfig(config, t)
    case Stts(_, es) => PList(PTts, es, t)
    case Stss(_, es) => PList(P32, es, t)
    case Stsc(_, es) => PList(PStc, es, t)
    case Stsz(_, es) => PList(PSample, es, t)
    case Stco(_, _, es) => PList(P64, es, t)
    case MetaItem(_, storage, meta) => P32(storage, PArr32(meta.key, PArr32(meta.value, t)))
    case Cover(kind, data) => P32(kind, PArr64(data, t))
  }

  function PRecord(r: Record, t: seq<byte>): seq<byte>
  {
    P32(HandleOf(r), P32(Tag(r), P32(Number(r) % TWO32, PBody(r, t))))
  }

  function PRecords(rs: seq<Record>, t: seq<byte>): seq<byte>
  {
    if rs == [] then t else PRecord(rs[0], PRecords(rs[1..], t))
  }

  // ---------- what follows a record does not change its bytes ----------

  lemma P32Tail(x: u32, a: seq<byte>, b: seq<byte>)
    ensures P32(x, a + b) == P32(x, a) + b
  {
    hide LE32;
  }

  lemma P64Tail(x: u64, a: seq<byte>, b: seq<byte>)
    ensures P64(x, a + b) == P64(x, a) + b
  {
    hide LE64;
  }

  lemma PArr32Tail(s: seq<byte>, a: seq<byte>, b: seq<byte>)
    ensures PArr32(s, a + b) == PArr32(s, a) + b
  {
    hide LE32;
    assert s + (a + b) == (s + a) + b;
  }

  lemma PArr64Tail(s: seq<byte>, a: seq<byte>, b: seq<byte>)
    ensures PArr64(s, a + b) == PArr64(s, a) + b
  {
    hide LE64;
    assert s + (a + b) == (s + a) + b;
  }

  ghost predicate Tails<T(!new)>(put: (T, seq<byte>) -> seq<byte>)
  {
    forall e: T, a: seq<byte>, b: seq<byte> {:trigger put(e, a + b)} :: put(e, a + b) == put(e, a) + b
  }

  lemma {:induction false} PListTail<T(!new)>(put: (T, seq<byte>) -> seq<byte>, es: seq<T>, a: seq<byte>, b: seq<byte>)
    requires Tails(put)
    ensures PList(put, es, a + b) == PList(put, es, a) + b
  {
    if es != [] {
      PListTail(put, es[1..], a, b);
      assert put(es[0], PList(put, es[1..], a) + b) == put(es[0], PList(put, es[1..], a)) + b;
    }
  }

  lemma EntriesTail()
    ensures Tails(PTts) && Tails(P32) && Tails(PStc) && Tails(PSample) && Tails(P64)
  {
    hide LE32, LE64;
  }

  lemma ConfigTail(c: Config, a: seq<byte>, b: seq<byte>)
    ensures PConfig(c, a + b) == PConfig(c, a) + b
  {
    hide P32, PArr32, PArr64;
    match c {
      case Avc(sps, pps, w, h) =>
        P32Tail(h, a, b);
        P32Tail(w, P32(h, a), b);
        PArr64Tail(pps, P32(w, P32(h, a)), b);
        PArr64Tail(sps, PArr64(pps, P32(w, P32(h, a))), b);
        P32Tail(AVC1, PArr64(sps, PArr64(pps, P32(w, P32(h, a)))), b);
      case Hevc(sps, pps, vps, w, h) =>
        P32Tail(h, a, b);
        P32Tail(w, P32(h, a), b);
        PArr64Tail(vps, P32(w, P32(h, a)), b);
        PArr64Tail(pps, PArr64(vps, P32(w, P32(h, a))), b);
        PArr64Tail(sps, PArr64(pps, PArr64(vps, P32(w, P32(h, a)))), b);
        P32Tail(HVC1, PArr64(sps, PArr64(pps, PArr64(vps, P32(w, P32(h, a))))), b);
      case Aac(codec, asc, channels, size, rate) =>
        P32Tail(rate, a, b);
        P32Tail(size, P32(rate, a), b);
        P32Tail(channels, P32(size, P32(rate, a)), b);
        PArr32Tail(asc, P32(channels, P32(size, P32(rate, a))), b);
        P32Tail(codec, PArr32(asc, P32(channels, P32(size, P32(rate, a)))), b);
      case Mime(encoding, mime) =>
        PArr32Tail(mime, a, b);
        PArr32Tail(encoding, PArr32(mime, a), b);
      case NoConfig =>
    }
  }

  lemma InfoTail(i: TrackInfo, a: seq<byte>, b: seq<byte>)
    ensures PInfo(i, a + b) == PInfo(i, a) + b
  {
    hide P32, P64, PArr32;
    P64Tail(i.modified, a, b);
    P64Tail(i.created, P64(i.modified, a), b);
    P32Tail(i.timescale, P64(i.created, P64(i.modified, a)), b);
    P32Tail(i.flags, P32(i.timescale, P64(i.created, P64(i.modified, a))), b);
    PArr32Tail(i.name, P32(i.flags, P32(i.timescale, P64(i.created, P64(i.modified, a)))), b);
    P32Tail(TypeCode(i.kind), PArr32(i.name, P32(i.flags, P32(i.timescale, P64(i.created, P64(i.modified, a))))), b);
  }

  lemma BodyTail(r: Record, a: seq<byte>, b: seq<byte>)
    ensures PBody(r, a + b) == PBody(r, a) + b
  {
    hide P32, P64, PArr32, PArr64, PConfig, PInfo, PList;
    EntriesTail();
    match r {
      case Trak(_, info, refs) =>
        PArr64Tail(refs, a, b);
        InfoTail(info, PArr64(refs, a), b);
      case Stsd(_, config) => ConfigTail(config, a, b);
      case Stts(_, es) => PListTail(PTts, es, a, b);
      case Stss(_, es) => PListTail(P32, es, a, b);
      case Stsc(_, es) => PListTail(PStc, es, a, b);
      case Stsz(_, es) => PListTail(PSample, es, a, b);
      case Stco(_, _, es) => PListTail(P64, es, a, b);
      case MetaItem(_, storage, meta) =>
        PArr32Tail(meta.value, a, b);
        PArr32Tail(meta.key, PArr32(meta.value, a), b);
        P32Tail(storage, PArr32(meta.key, PArr32(meta.value, a)), b);
      case Cover(kind, data) =>
        PArr64Tail(data, a, b);
        P32Tail(kind, PArr64(data, a), b);
    }
  }

  lemma RecordTail(r: Record, a: seq<byte>, b: seq<byte>)
    ensures PRecord(r, a + b) == PRecord(r, a) + b
  {
    hide P32, PBody, Tag, Number;
    BodyTail(r, a, b);
    P32Tail(Number(r) % TWO32, PBody(r, a), b);
    P32Tail(Tag(r), P32(Number(r) % TWO32, PBody(r, a)), b);
    P32Tail(HandleOf(r), P32(Tag(r), P32(Number(r) % TWO32, PBody(r, a))), b);
  }

  lemma {:induction false} RecordsTail(rs: seq<Record>, a: seq<byte>, b: seq<byte>)
    ensures PRecords(rs, a + b) == PRecords(rs, a) + b
  {
    hide PRecord;
    if rs != [] {
      RecordsTail(rs[1..], a, b);
      RecordTail(rs[0], PRecords(rs[1..], a), b);
    }
  }

  lemma {:induction false} RecordsAppend(a: seq<Record>, b: seq<Record>, t: seq<byte>)
    ensures PRecords(a + b, t) == PRecords(a, PRecords(b, t))
  {
    hide PRecord;
    if a == [] {
      assert a + b == b;
    } else {
      assert (a + b)[1..] == a[1..] + b;
      RecordsAppend(a[1..], b, t);
    }
  }
}
