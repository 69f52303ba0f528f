/**
 The demuxer's reading of sample descriptions and decoder configurations: bounded on
 any bytes, and faithful on those the muxer writes.
 */
module ConfigReader {
  import opened Bytes
  import opened Wrappers
  import opened ConfigBytes
  import opened MediaInput
  import J = JournalFormat

  datatype SizeResult = Size(n: nat, bytes: nat) | Bad(error: ReadError)

  /** One to four groups; a fifth is refused. */
  method ReadSize(f: MediaFile, ghost good: bool, ghost n: nat, ghost rest: seq<byte>) returns (r: SizeResult)
    requires good ==> n < 0x1000_0000 && f.Next(Groups(n) + rest)
    modifies f`pos
    ensures f.pos >= old(f.pos) && (r.Size? ==> f.pos == old(f.pos) + r.bytes && 1 <= r.bytes <= 4 && r.n < 0x1000_0000)
    ensures good ==> r == Size(n, |Groups(n)|) && f.Next(rest)
  {
    hide Groups, Value;
    ghost var b := Groups(n);
    GroupsValue(n);
    if good {
      GroupsShort(n);
      NextSplit(f, b, rest);
    }
    EmptyValue(b);
    var size: int, count: nat, more := 0, 0, true;
    while more && count < 4
      invariant count <= 4 && f.pos == old(f.pos) + count && (count > 0 ==> 0 < f.pos <= |f.bytes|)
      invariant more <==> count == 0 || f.bytes[f.pos - 1] >= 128
      invariant 0 <= size < (if count == 0 then 1 else if count == 1 then 0x80 else if count == 2 then 0x4000 else if count == 3 then 0x20_0000 else 0x1000_0000)
      invariant good ==> count <= |b| && size == Value(b[..count]) && (more <==> count < |b|)
    {
      var x := f.Read8();
      if x.None? { return Bad(Eio); }
      if good {
        ValueNext(b, count);
        assert f.bytes[old(f.pos)..old(f.pos) + |b|][count] == b[count];
      }
      size, count, more := size * 128 + x.value % 128, count + 1, x.value >= 128;
    }
    if more { return Bad(Eproto); }
    assert good ==> b[..count] == b;
    return Size(size, count);
  }

  // ---------- the audio configuration read back ----------

  datatype AscResult = AscRead(asc: Option<seq<byte>>) | AscBad(error: ReadError)

  /** The specific configuration of the innermost descriptor, unless there is one already; `max` bytes of the box are left. */
  method ReadDsi(f: MediaFile, had: Option<seq<byte>>, max: int, ghost good: bool, ghost asc: seq<byte>) returns (r: AscResult)
    requires good ==> had.None? && 0 < |asc| < 0x1000_0000 && f.Next(DsiTail(|asc|, asc)) && max == |DsiTail(|asc|, asc)|
    modifies f`pos
    ensures f.pos >= old(f.pos) && (r.AscRead? ==> f.pos <= old(f.pos) + max)
    ensures good ==> r == AscRead(Some(asc))
  {
    hide Groups;
    var tag := Take8(f, good, 5, Groups(|asc|) + (asc + [6, 1, 2]));
    if tag.None? { return AscBad(Eio); }
    if tag.value != 5 { return AscBad(Eproto); }
    var size := ReadSize(f, good, |asc|, asc + [6, 1, 2]);
    if size.Bad? { return AscBad(size.error); }
    if max < 1 + size.bytes + size.n { return AscBad(Einval); }
    if had.None? && size.n > 0 {
      var b := TakeBytes(f, size.n, good, asc, [6, 1, 2]);
      if |b| != size.n { return AscBad(Enodata); }
      return AscRead(Some(b));
    }
    return AscRead(had);
  }

  /** The decoder configuration descriptor. */
  method ReadDcd(f: MediaFile, had: Option<seq<byte>>, max: int, ghost good: bool, ghost dcd: nat, ghost asc: seq<byte>) returns (r: AscResult)
    requires good ==> had.None? && 0 < |asc| < 0x1000_0000 && dcd == DcdSize(asc) < 0x1000_0000
    requires good ==> f.Next(DcdTail(dcd, |asc|, asc)) && max == |DcdTail(dcd, |asc|, asc)|
    modifies f`pos
    ensures f.pos >= old(f.pos) && (r.AscRead? ==> f.pos <= old(f.pos) + max)
    ensures good ==> r == AscRead(Some(asc))
  {
    hide Groups, DsiTail;
    if good { TailLength(asc); }
    ghost var tail := DsiTail(|asc|, asc);
    var tag := Take8(f, good, 4, Groups(dcd) + ([0x40, 0x15] + (ZEROES + tail)));
    if tag.None? { return AscBad(Eio); }
    if tag.value != 4 { return AscBad(Eproto); }
    var size := ReadSize(f, good, dcd, [0x40, 0x15] + (ZEROES + tail));
    if size.Bad? { return AscBad(size.error); }
    if max < 1 + size.bytes + size.n { return AscBad(Einval); }
    assert [0x40, 0x15] + (ZEROES + tail) == [0x40] + ([0x15] + (ZEROES + tail));
    var objectType := Take8(f, good, 0x40, [0x15] + (ZEROES + tail));
    if objectType.None? { return AscBad(Eio); }
    if objectType.value != 0x40 { return AscBad(Eproto); }
    var streamType := Take8(f, good, 0x15, ZEROES + tail);
    if streamType.None? { return AscBad(Eio); }
    if streamType.value / 4 != 5 { return AscBad(Eproto); }
    Skip(f, 11, good, ZEROES, tail);
    r := ReadDsi(f, had, max - (1 + size.bytes + 13), good, asc);
  }

  /**
     The audio configuration box. On any bytes, a successful read consumes exactly the
     box; on a box that was written, it finds the configuration.
  */
  method ReadEsds(f: MediaFile, had: Option<seq<byte>>, max: nat, ghost good: bool, ghost id: u16, ghost asc: seq<byte>) returns (r: AscResult)
    requires good ==> had.None? && AscFits(asc)
    requires good ==> f.Next(EsdsContent(EsSize(asc), DcdSize(asc), |asc|, id, asc))
    requires good ==> max == |EsdsContent(EsSize(asc), DcdSize(asc), |asc|, id, asc)|
    modifies f`pos
    ensures f.pos >= old(f.pos) && (r.AscRead? ==> f.pos == old(f.pos) + max)
    ensures good ==> r == AscRead(Some(asc))
  {
    hide Groups, DcdTail, BE32, BE16;
    var start := f.pos;
    ghost var es, dcd := EsSize(asc), DcdSize(asc);
    ghost var tail := DcdTail(dcd, |asc|, asc);
    if good { DcdLength(asc); }
    if max < 9 { return AscBad(Einval); }
    var version := Take32(f, good, 0, [3] + (Groups(es) + (BE16(id) + ([0] + tail))));
    if version.None? { return AscBad(Eio); }
    var tag := Take8(f, good, 3, Groups(es) + (BE16(id) + ([0] + tail)));
    if tag.None? { return AscBad(Eio); }
    if tag.value != 3 { return AscBad(Eproto); }
    var size := ReadSize(f, good, es, BE16(id) + ([0] + tail));
    if size.Bad? { return AscBad(size.error); }
    if max < 5 + size.bytes + size.n { return AscBad(Einval); }
    var esId := Take16(f, good, id, [0] + tail);
    if esId.None? { return AscBad(Eio); }
    var flags := Take8(f, good, 0, tail);
    if flags.None? { return AscBad(Eio); }
    if flags.value >= 0x80 {
      var dependsOn := f.Read16();
      if dependsOn.None? { return AscBad(Eio); }
    }
    if flags.value / 0x40 % 2 == 1 {
      var length := f.Read8();
      if length.None? { return AscBad(Eio); }
      f.pos := f.pos + length.value;
    }
    r := ReadDcd(f, had, start + max - f.pos, good, dcd, asc);
    if r.AscRead? { f.pos := start + max; }
  }

  // ---------- video ----------

  datatype SetsResult = SetsRead(first: Option<seq<byte>>, min: nat) | SetsBad(error: ReadError)

  /** Parameter sets: the first that is not empty is kept, unless there is one already. `min` bytes of the box are accounted for. */
  method ReadSets(f: MediaFile, number: nat, had: Option<seq<byte>>, min: nat, max: nat, ghost good: bool, ghost nal: seq<byte>, ghost rest: seq<byte>)
    returns (r: SetsResult)
    requires good ==> number == 1 && had.None? && |nal| <= SET_MAX && f.Next(SetBytes(nal) + rest) && min + |nal| <= max
    modifies f`pos
    ensures f.pos >= old(f.pos)
    ensures r.SetsRead? ==> min <= r.min && (min <= max ==> r.min <= max) && f.Spent(old(f.pos), 2 * number + (r.min - min))
    ensures r.SetsRead? && ShortSet(had) ==> ShortSet(r.first)
    ensures good ==> r == SetsRead(SetOf(nal), min + |nal|) && f.Next(rest)
  {
    hide BE16;
    var kept, min' := had, min;
    if good { assert SetBytes(nal) + rest == BE16(|nal| % 0x1_0000) + (nal + rest); }
    for i := 0 to number
      invariant f.pos >= old(f.pos) && min <= min' && (min <= max ==> min' <= max) && f.Spent(old(f.pos), 2 * i + (min' - min))
      invariant ShortSet(had) ==> ShortSet(kept)
      invariant good && i == 0 ==> kept == had && min' == min && f.Next(BE16(|nal| % 0x1_0000) + (nal + rest))
      invariant good && i == 1 ==> kept == SetOf(nal) && min' == min + |nal| && f.Next(rest)
    {
      var length := Take16(f, good, |nal| % 0x1_0000, nal + rest);
      if length.None? { return SetsBad(Eio); }
      min' := min' + length.value;
      if max < min' { return SetsBad(Einval); }
      if kept.None? && length.value > 0 {
        var b := TakeBytes(f, length.value, good, nal, rest);
        kept := Some(b);
      } else {
        Skip(f, length.value, good, nal, rest);
      }
    }
    return SetsRead(kept, min');
  }

  datatype AvccResult = AvccRead(sps: Option<seq<byte>>, pps: Option<seq<byte>>) | AvccBad(error: ReadError)

  /** The sets read are those written; an empty picture parameter set is none. */
  predicate SetsBack(r: AvccResult, sps: seq<byte>, pps: seq<byte>)
  {
    r == AvccRead(Some(sps), SetOf(pps))
  }

  /**
     The video configuration box. On any bytes, a successful read stays within the box;
     on a box that was written, it finds the parameter sets exactly when their lengths
     fit 16 bits.
  */
  method ReadAvcc(f: MediaFile, hadSps: Option<seq<byte>>, hadPps: Option<seq<byte>>, max: nat,
                  ghost written: bool, ghost sps: seq<byte>, ghost pps: seq<byte>) returns (r: AvccResult)
    requires written ==> hadSps.None? && hadPps.None? && |sps| >= 4 && f.Next(AvccContent(sps, pps)) && max == |AvccContent(sps, pps)|
    modifies f`pos
    ensures f.pos >= old(f.pos) && (r.AvccRead? ==> f.Spent(old(f.pos), max))
    ensures r.AvccRead? && ShortSet(hadSps) && ShortSet(hadPps) ==> ShortSet(r.sps) && ShortSet(r.pps)
    ensures written ==> (SetsBack(r, sps, pps) <==> |sps| <= SET_MAX && |pps| <= SET_MAX)
  {
    hide SetBytes, BE16, BE32;
    ghost var good := written && |sps| <= SET_MAX && |pps| <= SET_MAX;
    ghost var tail := SetsTail(sps, pps);
    if max < 6 { return AvccBad(Einval); }
    ghost var word := FromBE32(if good then [1, sps[1], sps[2], sps[3]] else [0, 0, 0, 0]);
    if good { BE32Inverse([1, sps[1], sps[2], sps[3]]); }
    var version := Take32(f, good, word, [0xff, 0xe1] + tail);
    if version.None? { return AvccBad(Eio); }
    CountsWord();
    var counts := Take16(f, good, 0xffe1, tail);
    if counts.None? { return AvccBad(Eio); }
    var spsCount := counts.value % 32;
    if max < 6 + 2 * spsCount { return AvccBad(Einval); }
    var first := ReadSets(f, spsCount, hadSps, 6 + 2 * spsCount, max, good, sps, [1] + SetBytes(pps));
    if first.SetsBad? { return AvccBad(first.error); }
    var min := first.min + 1;
    if max < min { return AvccBad(Einval); }
    var ppsCount := Take8(f, good, 1, SetBytes(pps));
    if ppsCount.None? { return AvccBad(Eio); }
    if ppsCount.value > 127 { return AvccBad(Eproto); }
    min := min + 2 * ppsCount.value;
    if max < min { return AvccBad(Einval); }
    assert SetBytes(pps) + [] == SetBytes(pps);
    var second := ReadSets(f, ppsCount.value, hadPps, min, max, good, pps, []);
    if second.SetsBad? { return AvccBad(second.error); }
    f.pos := f.pos + (max - second.min);
    return AvccRead(first.first, second.first);
  }

  // ---------- the other video configuration ----------

  const MAX_ARRAYS: nat := 16

  /** A set is kept if it is the first of its kind and not empty; the low bits of the code say the kind. */
  function Keep(had: Sets, code: byte, nal: seq<byte>): Sets
  {
    if nal == [] then had
    else if code % 64 == 32 && had.vps.None? then had.(vps := Some(nal))
    else if code % 64 == 33 && had.sps.None? then had.(sps := Some(nal))
    else if code % 64 == 34 && had.pps.None? then had.(pps := Some(nal))
    else had
  }

  datatype ArrayResult = ArrayRead(sets: Sets, n: nat) | ArrayBad(error: ReadError)

  /** One parameter set; nothing compares its length with what is left of the box. */
  method ReadNal(f: MediaFile, had: Sets, code: byte, ghost good: bool, ghost nal: seq<byte>, ghost rest: seq<byte>) returns (r: ArrayResult)
    requires good ==> |nal| <= SET_MAX && f.Next(SetBytes(nal) + rest)
    modifies f`pos
    ensures f.pos >= old(f.pos) && (r.ArrayRead? ==> f.Spent(old(f.pos), r.n))
    ensures r.ArrayRead? && ShortSets(had) ==> ShortSets(r.sets)
    ensures good ==> r == ArrayRead(Keep(had, code, nal), 2 + |nal|) && f.Next(rest)
  {
    hide BE16;
    if good { assert SetBytes(nal) + rest == BE16(|nal| % 0x1_0000) + (nal + rest); }
    var length := Take16(f, good, |nal| % 0x1_0000, nal + rest);
    if length.None? { return ArrayBad(Eio); }
    var n: nat, kind := length.value, code % 64;
    var first := (kind == 32 && had.vps.None?) || (kind == 33 && had.sps.None?) || (kind == 34 && had.pps.None?);
    if n > 0 && first {
      var b := TakeBytes(f, n, good, nal, rest);
      r := ArrayRead(if kind == 32 then had.(vps := Some(b)) else if kind == 33 then had.(sps := Some(b)) else had.(pps := Some(b)), 2 + n);
    } else {
      Skip(f, n, good, nal, rest);
      r := ArrayRead(had, 2 + n);
    }
  }

  /** The sets of one kind. */
  method ReadArray(f: MediaFile, had: Sets, ghost good: bool, ghost code: byte, ghost nal: seq<byte>, ghost rest: seq<byte>) returns (r: ArrayResult)
    requires good ==> |nal| <= SET_MAX && f.Next(HvccArray(code, nal) + rest)
    modifies f`pos
    ensures f.pos >= old(f.pos) && (r.ArrayRead? ==> f.Spent(old(f.pos), r.n))
    ensures r.ArrayRead? && ShortSets(had) ==> ShortSets(r.sets)
    ensures good ==> r == ArrayRead(Keep(had, code, nal), 5 + |nal|) && f.Next(rest)
  {
    hide BE16, SetBytes, Keep;
    if good { assert HvccArray(code, nal) + rest == [code] + (BE16(1) + (SetBytes(nal) + rest)); }
    var kind := Take8(f, good, code, BE16(1) + (SetBytes(nal) + rest));
    if kind.None? { return ArrayBad(Eio); }
    var number := Take16(f, good, 1, SetBytes(nal) + rest);
    if number.None? { return ArrayBad(Eio); }
    if number.value > MAX_ARRAYS { return ArrayBad(Einval); }
    r := ArrayRead(had, 3);
    for i := 0 to number.value
      invariant r.ArrayRead? && f.pos >= old(f.pos) && f.Spent(old(f.pos), r.n)
      invariant ShortSets(had) ==> ShortSets(r.sets)
      invariant good && i == 0 ==> r == ArrayRead(had, 3) && f.Next(SetBytes(nal) + rest)
      invariant good && i == 1 ==> r == ArrayRead(Keep(had, code, nal), 5 + |nal|) && f.Next(rest)
    {
      var n := r.n;
      r := ReadNal(f, r.sets, kind.value, good, nal, rest);
      if r.ArrayBad? { return; }
      r := ArrayRead(r.sets, n + r.n);
    }
  }

  /** The arrays that are still to come. */
  function ArraysFrom(i: nat, vps: seq<byte>, sps: seq<byte>, pps: seq<byte>): seq<byte>
  {
    if i == 0 then HvccArray(0xA0, vps) + (HvccArray(0xA1, sps) + HvccArray(0xA2, pps))
    else if i == 1 then HvccArray(0xA1, sps) + HvccArray(0xA2, pps)
    else if i == 2 then HvccArray(0xA2, pps)
    else []
  }

  function SetsAt(i: nat, vps: seq<byte>, sps: seq<byte>, pps: seq<byte>): Sets
  {
    Sets(if i < 2 then None else SetOf(sps), if i < 3 then None else SetOf(pps), if i < 1 then None else SetOf(vps))
  }

  function LengthAt(i: nat, vps: seq<byte>, sps: seq<byte>, pps: seq<byte>): nat
  {
    HVCC_INFO + 1 + (if i < 1 then 0 else 5 + |vps|) + (if i < 2 then 0 else 5 + |sps|) + (if i < 3 then 0 else 5 + |pps|)
  }

  function NalAt(i: nat, vps: seq<byte>, sps: seq<byte>, pps: seq<byte>): (byte, seq<byte>)
  {
    if i == 0 then (0xA0, vps) else if i == 1 then (0xA1, sps) else (0xA2, pps)
  }

  lemma NextArray(i: nat, vps: seq<byte>, sps: seq<byte>, pps: seq<byte>)
    requires i < 3
    ensures var (code, nal) := NalAt(i, vps, sps, pps);
            && ArraysFrom(i, vps, sps, pps) == HvccArray(code, nal) + ArraysFrom(i + 1, vps, sps, pps)
            && Keep(SetsAt(i, vps, sps, pps), code, nal) == SetsAt(i + 1, vps, sps, pps)
            && LengthAt(i + 1, vps, sps, pps) == LengthAt(i, vps, sps, pps) + 5 + |nal|
  {
    hide HvccArray;
  }

  /**
     The configuration of the newer video codec. Only the fixed part is compared with
     the size of the box: `n`, what was read, can be more. On a box that was written
     with lengths of 16 bits it finds the parameter sets.
  */
  method ReadHvcc(f: MediaFile, had: Sets, max: int, ghost good: bool, ghost info: seq<byte>, ghost vps: seq<byte>, ghost sps: seq<byte>, ghost pps: seq<byte>)
    returns (r: ArrayResult)
    requires good ==> had == NO_SETS && |info| == HVCC_INFO && |vps| <= SET_MAX && |sps| <= SET_MAX && |pps| <= SET_MAX
    requires good ==> f.Next(HvccContent(info, vps, sps, pps)) && max == |HvccContent(info, vps, sps, pps)|
    modifies f`pos
    ensures f.pos >= old(f.pos) && (r.ArrayRead? ==> f.Spent(old(f.pos), r.n))
    ensures r.ArrayRead? && ShortSets(had) ==> ShortSets(r.sets)
    ensures good ==> r == ArrayRead(Sets(SetOf(sps), SetOf(pps), SetOf(vps)), max)
  {
    hide HvccArray, Keep, ArraysFrom;
    if max < HVCC_INFO { return ArrayBad(Einval); }
    ghost var arrays := ArraysFrom(0, vps, sps, pps);
    if good { ArraysStart(info, vps, sps, pps); }
    var fixedPart := TakeBytes(f, HVCC_INFO, good, info, [3] + arrays);
    if |fixedPart| < HVCC_INFO { return ArrayBad(Eio); }
    var number := Take8(f, good, 3, arrays);
    if number.None? { return ArrayBad(Eio); }
    if number.value > MAX_ARRAYS { return ArrayBad(Einval); }
    r := ArrayRead(had, HVCC_INFO + 1);
    for i := 0 to number.value
      invariant r.ArrayRead? && f.pos >= old(f.pos) && f.Spent(old(f.pos), r.n)
      invariant ShortSets(had) ==> ShortSets(r.sets)
      invariant good ==> r == ArrayRead(SetsAt(i, vps, sps, pps), LengthAt(i, vps, sps, pps)) && f.Next(ArraysFrom(i, vps, sps, pps))
    {
      ghost var nal := NalAt(i, vps, sps, pps);
      if good { NextArray(i, vps, sps, pps); }
      var n := r.n;
      r := ReadArray(f, r.sets, good, nal.0, nal.1, ArraysFrom(i + 1, vps, sps, pps));
      if r.ArrayBad? { return; }
      r := ArrayRead(r.sets, n + r.n);
    }
  }

  lemma ArraysStart(info: seq<byte>, vps: seq<byte>, sps: seq<byte>, pps: seq<byte>)
    ensures HvccContent(info, vps, sps, pps) == info + ([3] + ArraysFrom(0, vps, sps, pps))
  {
    hide HvccArray;
  }

  // ---------- sample descriptions ----------

  datatype EntryResult = EntryRead(desc: Desc, n: nat) | EntryBad(error: ReadError)

  /** What follows the words of the entry. */
  function VideoTail(c: J.Config, info: seq<byte>): seq<byte>
    requires Describable(J.Video, c)
  {
    BE16(1) + (Zeros(32) + (BE32(0x18ffff) + CodecBytes(c, info)))
  }

  lemma VideoParts(c: J.Config, id: nat, info: seq<byte>)
    requires Describable(J.Video, c)
    ensures var b := CodecBytes(c, info);
            && EntryOf(J.Video, c, id, info) ==
               BE32((86 + |b|) % TWO32) + (BE32(if c.Avc? then J.AVC1 else J.HVC1) + (WordBytes(VisualWords(c.width, c.height)) + VideoTail(c, info)))
            && |EntryOf(J.Video, c, id, info)| == 86 + |b|
            && b == BE32(|b| % TWO32) + (BE32(CodecKind(c)) + CodecContent(c, info))
            && |b| == 8 + |CodecContent(c, info)|
  {
    hide BE32, BE16, WordBytes, VisualWords, AvccContent, HvccContent;
    var b := CodecBytes(c, info);
    assert VisualHead(c.width, c.height) + b == WordBytes(VisualWords(c.width, c.height)) + VideoTail(c, info);
  }

  /** The words an entry starts with: its size and type, and what its kind has in front. */
  function DescriptionWords(size: u32, kind: u32, words: seq<u32>): seq<u32>
  {
    [size, kind] + words
  }

  lemma EntryStart(size: u32, kind: u32, words: seq<u32>, rest: seq<byte>)
    ensures BE32(size) + (BE32(kind) + (WordBytes(words) + rest)) == WordBytes(DescriptionWords(size, kind, words)) + rest
  {
    hide BE32;
    WordBytesAppend([size, kind], words);
    assert [size, kind][..1] == [size] && [size][..0] == [];
    assert WordBytes([size, kind]) == BE32(size) + BE32(kind);
  }

  function VideoWords(c: J.Config, info: seq<byte>): (w: seq<u32>)
    requires Describable(J.Video, c)
    ensures |w| == 12 && w[8] == c.width % 0x1_0000 * 0x1_0000 + c.height % 0x1_0000
  {
    DescriptionWords((86 + |CodecBytes(c, info)|) % TWO32, if c.Avc? then J.AVC1 else J.HVC1, VisualWords(c.width, c.height))
  }

  lemma VideoEntryParts(c: J.Config, id: nat, info: seq<byte>)
    requires Describable(J.Video, c)
    ensures EntryOf(J.Video, c, id, info) == WordBytes(VideoWords(c, info)) + VideoTail(c, info)
    ensures |EntryOf(J.Video, c, id, info)| == 86 + |CodecBytes(c, info)| && 8 <= |CodecBytes(c, info)|
  {
    VideoParts(c, id, info);
    hide BE32, WordBytes, EntryOf, VideoTail, VisualWords, CodecBytes;
    EntryStart((86 + |CodecBytes(c, info)|) % TWO32, if c.Avc? then J.AVC1 else J.HVC1, VisualWords(c.width, c.height), VideoTail(c, info));
  }

  /** The number of frames, the name of the compressor and the depth. */
  method ReadVideoFixed(f: MediaFile, ghost good: bool, ghost rest: seq<byte>) returns (error: Option<ReadError>)
    requires good ==> f.Next(BE16(1) + (Zeros(32) + (BE32(0x18ffff) + rest)))
    modifies f`pos
    ensures f.pos >= old(f.pos) && (error.None? ==> f.pos == old(f.pos) + 38)
    ensures good ==> error.None? && f.Next(rest)
  {
    hide BE32, BE16, Zeros;
    var frames := Take16(f, good, 1, Zeros(32) + (BE32(0x18ffff) + rest));
    if frames.None? { return Some(Eio); }
    var name := TakeBytes(f, 32, good, Zeros(32), BE32(0x18ffff) + rest);
    if |name| != 32 { return Some(Enodata); }
    var depth := Take32(f, good, 0x18ffff, rest);
    if depth.None? { return Some(Eio); }
    return None;
  }

  /** An entry of a video track, up to the decoder configuration; `read` bytes of the box are accounted for. */
  method ReadVideoEntry(f: MediaFile, had: Desc, max: nat, read: nat, ghost good: bool, ghost c: J.Config, ghost id: nat, ghost info: seq<byte>)
    returns (r: EntryResult)
    requires good ==> had == NO_DESC && Describable(J.Video, c) && Carried(J.Video, c) && |info| == HVCC_INFO && read == 8
    requires good ==> f.Next(EntryOf(J.Video, c, id, info)) && max == read + |EntryOf(J.Video, c, id, info)|
    modifies f`pos
    ensures f.pos >= old(f.pos) && (r.EntryRead? ==> f.Spent(old(f.pos), r.n))
    ensures r.EntryRead? && ShortSets(had.sets) ==> ShortSets(r.desc.sets)
    ensures good ==> r == EntryRead(Told(J.Video, c), max - read)
  {
    hide WordBytes, EntryOf, CodecBytes, VideoWords, ShortSets;
    ghost var words: seq<u32>, b, tail := [], [], [];
    if good {
      VideoEntryParts(c, id, info);
      words, b, tail := VideoWords(c, info), CodecBytes(c, info), VideoTail(c, info);
    }
    if max < 102 { return EntryBad(Einval); }
    var w := TakeWords(f, 12, good, words, tail);
    if w.None? { return EntryBad(Eio); }
    var error := ReadVideoFixed(f, good, b);
    if error.Some? { return EntryBad(error.value); }
    var desc := had.(width := w.value[8] / 0x1_0000, height := w.value[8] % 0x1_0000);
    if good { ToldSize(c, w.value[8]); }
    r := ReadCodec(f, desc, max - read - 86, good, c, info);
    if r.EntryRead? { r := EntryRead(r.desc, 86 + r.n); }
  }

  lemma ToldSize(c: J.Config, word: u32)
    requires Describable(J.Video, c) && word == c.width % 0x1_0000 * 0x1_0000 + c.height % 0x1_0000
    ensures Told(J.Video, c).width == word / 0x1_0000 && Told(J.Video, c).height == word % 0x1_0000
    ensures Told(J.Video, c) == NO_DESC.(codec := Told(J.Video, c).codec, sets := Told(J.Video, c).sets, width := word / 0x1_0000, height := word % 0x1_0000)
  {
  }

  /** The decoder configuration of a video entry; `max` bytes of the box are left, or less than none. */
  method ReadCodec(f: MediaFile, had: Desc, max: int, ghost good: bool, ghost c: J.Config, ghost info: seq<byte>) returns (r: EntryResult)
    requires good ==> Describable(J.Video, c) && Carried(J.Video, c) && |info| == HVCC_INFO && had.sets == NO_SETS
    requires good ==> f.Next(CodecBytes(c, info)) && max == |CodecBytes(c, info)|
    modifies f`pos
    ensures f.pos >= old(f.pos) && (r.EntryRead? ==> f.Spent(old(f.pos), r.n))
    ensures r.EntryRead? && ShortSets(had.sets) ==> ShortSets(r.desc.sets)
    ensures good ==> r == EntryRead(had.(codec := Told(J.Video, c).codec, sets := Told(J.Video, c).sets), max)
  {
    hide BE32, AvccContent, HvccContent, CodecBytes;
    if good { VideoParts(c, 0, info); }
    ghost var content := if good then CodecContent(c, info) else [];
    var size := Take32(f, good, (8 + |content|) % TWO32, BE32(if good then CodecKind(c) else 0) + content);
    if size.None? { return EntryBad(Eio); }
    var codec := Take32(f, good, if good then CodecKind(c) else 0, content);
    if codec.None? { return EntryBad(Eio); }
    if codec.value == AVCC {
      if max < 8 { return EntryBad(Einval); }
      var x := ReadAvcc(f, had.sets.sps, had.sets.pps, max - 8, good, if good then c.sps else [], if good then c.pps else []);
      if x.AvccBad? { return EntryBad(x.error); }
      return EntryRead(had.(codec := AvcCodec, sets := Sets(x.sps, x.pps, had.sets.vps)), max);
    } else if codec.value == HVCC {
      var x := ReadHvcc(f, had.sets, max - 8, good, info, if good then c.vps else [], if good then c.sps else [], if good then c.pps else []);
      if x.ArrayBad? { return EntryBad(x.error); }
      return EntryRead(had.(codec := HevcCodec, sets := x.sets), 8 + x.n);
    } else {
      return EntryBad(Enosys);
    }
  }

  lemma AudioParts(c: J.Config, id: nat, info: seq<byte>)
    requires Describable(J.Audio, c)
    ensures 16 + EsSize(c.asc) + |Groups(EsSize(c.asc))| < TWO32
    ensures var b := EsdsBytes(id % 0x1_0000, c.asc);
            var content := EsdsContent(EsSize(c.asc), DcdSize(c.asc), |c.asc|, id % 0x1_0000, c.asc);
            && EntryOf(J.Audio, c, id, info) == BE32((36 + |b|) % TWO32) + (BE32(MP4A) + (WordBytes(AudioWords(c.sampleRate)) + b))
            && |EntryOf(J.Audio, c, id, info)| == 36 + |b|
            && b == BE32((8 + |content|) % TWO32) + (BE32(ESDS) + content) && |b| == 8 + |content|
  {
    hide BE32, WordBytes, AudioWords, EsdsContent, EsSize, DcdSize, Groups, AscFits, FromBE32, Text, CodecBytes, VisualHead;
    FitsBox(c.asc);
    EsdsLength(id % 0x1_0000, c.asc);
  }

  function AudioEntryWords(c: J.Config, n: nat): (w: seq<u32>)
    requires Describable(J.Audio, c)
    ensures |w| == 9 && w[6] == 0x2_0010 && w[8] == c.sampleRate
  {
    DescriptionWords((36 + n) % TWO32, MP4A, AudioWords(c.sampleRate))
  }

  /** The entry, the header of its configuration and the configuration. */
  lemma AudioEntryParts(c: J.Config, id: nat, info: seq<byte>)
    requires Describable(J.Audio, c)
    ensures var content := EsdsContent(EsSize(c.asc), DcdSize(c.asc), |c.asc|, id % 0x1_0000, c.asc);
            var n := 8 + |content|;
            && EntryOf(J.Audio, c, id, info) == WordBytes(AudioEntryWords(c, n)) + (BE32(n % TWO32) + (BE32(ESDS) + content))
            && |EntryOf(J.Audio, c, id, info)| == 36 + n
  {
    AudioParts(c, id, info);
    hide BE32, WordBytes, EntryOf, EsdsContent, EsdsBytes, EsSize, DcdSize, Groups, AudioWords, DescriptionWords, AscFits, FromBE32;
    var b := EsdsBytes(id % 0x1_0000, c.asc);
    EntryStart((36 + |b|) % TWO32, MP4A, AudioWords(c.sampleRate), b);
  }

  /** An entry of an audio track, with its configuration if that comes next. */
  method ReadAudioEntry(f: MediaFile, had: Desc, max: nat, read: nat, ghost good: bool, ghost c: J.Config, ghost id: nat, ghost info: seq<byte>)
    returns (r: EntryResult)
    requires good ==> had == NO_DESC && Describable(J.Audio, c) && read == 8
    requires good ==> f.Next(EntryOf(J.Audio, c, id, info)) && max == read + |EntryOf(J.Audio, c, id, info)|
    modifies f`pos
    ensures f.pos >= old(f.pos) && (r.EntryRead? ==> f.Spent(old(f.pos), r.n) && r.desc.sets == had.sets)
    ensures good ==> r == EntryRead(Told(J.Audio, c), max - read)
  {
    hide BE32, WordBytes, EntryOf, EsdsContent, AudioEntryWords, EsSize, DcdSize, AscFits;
    ghost var words: seq<u32>, content, asc := [], [], [];
    if good {
      AudioEntryParts(c, id, info);
      asc := c.asc;
      content := EsdsContent(EsSize(asc), DcdSize(asc), |asc|, id % 0x1_0000, asc);
      words := AudioEntryWords(c, 8 + |content|);
    }
    if max < 44 { return EntryBad(Einval); }
    var w := TakeWords(f, 9, good, words, BE32((8 + |content|) % TWO32) + (BE32(ESDS) + content));
    if w.None? { return EntryBad(Eio); }
    var desc := had.(channels := w.value[6] / 0x1_0000, sampleSize := w.value[6] % 0x1_0000, rate := w.value[8]);
    var codecSize := Take32(f, good, (8 + |content|) % TWO32, BE32(ESDS) + content);
    if codecSize.None? { return EntryBad(Eio); }
    var codec := Take32(f, good, ESDS, content);
    if codec.None? { return EntryBad(Eio); }
    if codec.value != ESDS { return EntryRead(desc, 44); }
    if max < read + 44 { return EntryBad(Einval); }
    var x := ReadEsds(f, had.asc, max - read - 44, good, id % 0x1_0000, asc);
    if x.AscBad? { return EntryBad(x.error); }
    return EntryRead(desc.(asc := x.asc), max - read);
  }

  const STRING_MAX: nat := 999

  /** A string up to its end, the end of the box or the end of the buffer. */
  method ReadString(f: MediaFile, max: nat, read: nat, ghost good: bool) returns (ok: bool, n: nat)
    requires good ==> f.pos + max <= |f.bytes| + read
    modifies f`pos
    ensures f.pos >= old(f.pos) && (ok ==> f.pos == old(f.pos) + n && (read <= max ==> read + n <= max))
    ensures good ==> ok
  {
    n, ok := 0, true;
    while n < STRING_MAX && read + n < max
      invariant f.pos == old(f.pos) + n && (read <= max ==> read + n <= max)
    {
      var x := f.Read8();
      if x.None? { return false, n; }
      n := n + 1;
      if x.value == 0 { return; }
    }
  }

  /** An entry of a metadata track: encoding and MIME type. */
  method ReadMetadataEntry(f: MediaFile, max: nat, read: nat, ghost good: bool) returns (r: EntryResult)
    requires good ==> f.pos + max <= |f.bytes| + read && max >= read + 18 && read >= 8
    modifies f`pos
    ensures f.pos >= old(f.pos) && (r.EntryRead? ==> f.Spent(old(f.pos), r.n) && r.desc == NO_DESC)
    ensures good ==> r.EntryRead? && read + r.n <= max
  {
    if max < 24 { return EntryBad(Einval); }
    var w := f.ReadWords(3);
    if w.None? { return EntryBad(Eio); }
    var zero := f.Read16();
    if zero.None? { return EntryBad(Eio); }
    var index := f.Read16();
    if index.None? { return EntryBad(Eio); }
    var ok, encoding := ReadString(f, max, read + 16, good);
    if !ok { return EntryBad(Eio); }
    var mime;
    ok, mime := ReadString(f, max, read + 16 + encoding, good);
    if !ok { return EntryBad(Eio); }
    return EntryRead(NO_DESC, 16 + encoding + mime);
  }

  lemma MetadataParts(c: J.Config, id: nat, info: seq<byte>)
    ensures |EntryOf(J.Timed, c, id, info)| >= 18
  {
  }

  /** One entry, by the type of the track. */
  method ReadEntry(f: MediaFile, handler: Handler, had: Desc, max: nat, read: nat,
                   ghost good: bool, ghost kind: J.TrackType, ghost c: J.Config, ghost id: nat, ghost info: seq<byte>) returns (r: EntryResult)
    requires good ==> had == NO_DESC && Describable(kind, c) && Carried(kind, c) && |info| == HVCC_INFO && read == 8 && handler == HandlerOf(kind)
    requires good ==> f.Next(EntryOf(kind, c, id, info)) && max == read + |EntryOf(kind, c, id, info)|
    modifies f`pos
    ensures f.pos >= old(f.pos) && (r.EntryRead? ==> f.Spent(old(f.pos), r.n))
    ensures r.EntryRead? && ShortSets(had.sets) ==> ShortSets(r.desc.sets)
    ensures good ==> r.EntryRead? && r.desc == Told(kind, c) && read + r.n <= max
  {
    hide EntryOf, ShortSets;
    match handler {
      case VideoHandler => r := ReadVideoEntry(f, had, max, read, good, c, id, info);
      case AudioHandler => r := ReadAudioEntry(f, had, max, read, good, c, id, info);
      case MetadataHandler =>
        if good { MetadataParts(c, id, info); }
        r := ReadMetadataEntry(f, max, read, good);
        if r.EntryRead? { r := EntryRead(had, r.n); }
      case _ => r := EntryRead(had, 0);
    }
  }

  const MAX_DESCRIPTIONS: nat := 10000000

  /**
     The sample description box. On any bytes, what was read and stepped over is `n`,
     which is the size of the box unless the entries claimed more. A description that
     the muxer wrote, with lengths of 16 bits, tells the demuxer what the muxer knew.
  */
  method ReadStsd(f: MediaFile, handler: Handler, had: Desc, max: nat,
                  ghost good: bool, ghost kind: J.TrackType, ghost c: J.Config, ghost id: nat, ghost info: seq<byte>) returns (r: EntryResult)
    requires good ==> had == NO_DESC && Describable(kind, c) && Carried(kind, c) && |info| == HVCC_INFO && handler == HandlerOf(kind)
    requires good ==> f.Next(StsdContent(kind, c, id, info)) && max == |StsdContent(kind, c, id, info)|
    modifies f`pos
    ensures f.pos >= old(f.pos) && (r.EntryRead? ==> f.Spent(old(f.pos), r.n) && r.n >= max)
    ensures r.EntryRead? && ShortSets(had.sets) ==> ShortSets(r.desc.sets)
    ensures good ==> r == EntryRead(Told(kind, c), max)
  {
    hide EntryOf, ShortSets, WordBytes;
    if max < 8 { return EntryBad(Einval); }
    ghost var entry := if good then EntryOf(kind, c, id, info) else [];
    if good { assert StsdContent(kind, c, id, info) == WordBytes([0, 1]) + entry; }
    var w := TakeWords(f, 2, good, [0, 1], entry);
    if w.None? { return EntryBad(Eio); }
    if w.value[1] > MAX_DESCRIPTIONS { return EntryBad(Eproto); }
    r := EntryRead(had, 8);
    for i := 0 to w.value[1]
      invariant r.EntryRead? && f.pos >= old(f.pos) && f.Spent(old(f.pos), r.n)
      invariant ShortSets(had.sets) ==> ShortSets(r.desc.sets)
      invariant good && i == 0 ==> r == EntryRead(had, 8) && f.Next(entry)
      invariant good && i == 1 ==> r.desc == Told(kind, c) && r.n <= max
    {
      var read := r.n;
      r := ReadEntry(f, handler, r.desc, max, read, good, kind, c, id, info);
      if r.EntryBad? { return; }
      r := EntryRead(r.desc, read + r.n);
    }
    if r.n < max {
      f.pos := f.pos + (max - r.n);
      r := EntryRead(r.desc, max);
    }
  }
}
