/**
 The muxer's writers of decoder configurations and of the sample descriptions around
 them, with the point at which each gives up.
 */
module DecoderConfig {
  import opened Bytes
  import opened Wrappers
  import opened ConfigBytes
  import opened TablesMemory
  import J = JournalFormat

  // ---------- lengths in groups of seven bits ----------

  /** The loop that counts the groups of a length. */
  method SizeLength(size: u32) returns (bytes: nat)
    ensures bytes == |HighGroups(size)| && (size > 0 ==> bytes == |Groups(size)|)
  {
    var n: nat := size;
    bytes := 0;
    while n > 0
      invariant bytes + |HighGroups(n)| == |HighGroups(size)|
    {
      bytes := bytes + 1;
      n := n / 128;
    }
  }

  /** The switch that writes a length of one to four groups; each case falls through to the next. */
  method WriteSize(w: TablesBuffer, size: u32, length: nat, written: nat, max: nat) returns (r: WriteResult)
    requires w.Room(written, max) && length == |HighGroups(size)|
    modifies w`offset, w.buf
    ensures w.offset <= w.buf.Length && old(w.Content()) <= w.Content()
    ensures r == if 0 < size < 0x1000_0000 then ByRoom(written, |Groups(size)|, max) else Invalid
    ensures r.Wrote? ==> w.Content() == old(w.Content()) + Groups(size)
  {
    HighCount(size);
    GroupsUpTo4(size);
    if length == 0 || length > 4 { return Invalid; }
    var b: seq<byte> :=
      (if length >= 4 then [size / 0x20_0000 % 128 + 128] else []) +
      (if length >= 3 then [size / 0x4000 % 128 + 128] else []) +
      (if length >= 2 then [size / 0x80 % 128 + 128] else []) +
      [size % 128];
    assert b == Groups(size);
    var x := w.WriteBytes(b, written, max);
    r := if x.Wrote? then Wrote(x.n) else NoSpace;
  }

  // ---------- bounded writes towards a goal ----------

  /** Appends `b`; `goal` is what the buffer holds once `rest` has been appended as well. */
  method Put(w: TablesBuffer, b: seq<byte>, written: nat, max: nat, ghost goal: seq<byte>, ghost rest: seq<byte>) returns (r: WriteResult)
    requires w.Room(written, max) && w.Content() + (b + rest) == goal
    modifies w`offset, w.buf
    ensures w.offset <= w.buf.Length && old(w.Content()) <= w.Content()
    ensures r == ByRoom(written, |b|, max)
    ensures r.Wrote? ==> w.Room(r.n, max) && w.Content() + rest == goal && w.offset == old(w.offset) + |b|
  {
    var x := w.WriteBytes(b, written, max);
    if x.NoSpace? { return NoSpace; }
    assert |w.Content()| == |old(w.Content())| + |b|;
    assert old(w.Content()) + b + rest == goal;
    return Wrote(x.n);
  }

  method Put16(w: TablesBuffer, x: u16, written: nat, max: nat, ghost goal: seq<byte>, ghost rest: seq<byte>) returns (r: WriteResult)
    requires w.Room(written, max) && w.Content() + (BE16(x) + rest) == goal
    modifies w`offset, w.buf
    ensures w.offset <= w.buf.Length && old(w.Content()) <= w.Content()
    ensures r == ByRoom(written, 2, max)
    ensures r.Wrote? ==> w.Room(r.n, max) && w.Content() + rest == goal && w.offset == old(w.offset) + 2
  {
    hide BE16;
    var y := w.Write16(x, written, max);
    if y.NoSpace? { return NoSpace; }
    assert |w.Content()| == |old(w.Content())| + 2;
    assert old(w.Content()) + BE16(x) + rest == goal;
    return Wrote(y.n);
  }

  method Put32(w: TablesBuffer, x: u32, written: nat, max: nat, ghost goal: seq<byte>, ghost rest: seq<byte>) returns (r: WriteResult)
    requires w.Room(written, max) && w.Content() + (BE32(x) + rest) == goal
    modifies w`offset, w.buf
    ensures w.offset <= w.buf.Length && old(w.Content()) <= w.Content()
    ensures r == ByRoom(written, 4, max)
    ensures r.Wrote? ==> w.Room(r.n, max) && w.Content() + rest == goal && w.offset == old(w.offset) + 4
  {
    hide BE32;
    var y := w.Write32(x, written, max);
    if y.NoSpace? { return NoSpace; }
    assert |w.Content()| == |old(w.Content())| + 4;
    assert old(w.Content()) + BE32(x) + rest == goal;
    return Wrote(y.n);
  }

  method PutSize(w: TablesBuffer, size: u32, length: nat, written: nat, max: nat, ghost goal: seq<byte>, ghost rest: seq<byte>) returns (r: WriteResult)
    requires w.Room(written, max) && length == |HighGroups(size)| && w.Content() + (Groups(size) + rest) == goal
    modifies w`offset, w.buf
    ensures w.offset <= w.buf.Length && old(w.Content()) <= w.Content()
    ensures r == if 0 < size < 0x1000_0000 then ByRoom(written, |Groups(size)|, max) else Invalid
    ensures r.Wrote? ==> w.Room(r.n, max) && w.Content() + rest == goal && w.offset == old(w.offset) + |Groups(size)|
  {
    hide Groups;
    r := WriteSize(w, size, length, written, max);
    if r.Wrote? {
      assert |w.Content()| == |old(w.Content())| + |Groups(size)|;
      assert old(w.Content()) + Groups(size) + rest == goal;
    }
  }

  // ---------- audio ----------

  /** The descriptor of the specific configuration, and the packet header after it. */
  method WriteDsi(w: TablesBuffer, asc: seq<byte>, length: nat, written: nat, max: nat, ghost goal: seq<byte>) returns (r: WriteResult)
    requires |asc| < TWO32 && length == |HighGroups(|asc|)|
    requires w.Room(written, max) && w.Content() + DsiTail(|asc|, asc) == goal
    modifies w`offset, w.buf
    ensures w.offset <= w.buf.Length && old(w.Content()) <= w.Content()
    ensures r == if GroupsFit(|asc|) then ByRoom(written, |DsiTail(|asc|, asc)|, max) else TreeResult(Some(1), written, 0, max)
    ensures r.Wrote? ==> w.Content() == goal && w.offset == old(w.offset) + |DsiTail(|asc|, asc)|
  {
    hide Groups, HighGroups;
    r := Put(w, [5], written, max, goal, Groups(|asc|) + (asc + [6, 1, 2]));
    if !r.Wrote? { return; }
    r := PutSize(w, |asc|, length, r.n, max, goal, asc + [6, 1, 2]);
    if !r.Wrote? { return; }
    r := Put(w, asc, r.n, max, goal, [6, 1, 2]);
    if !r.Wrote? { return; }
    assert [6, 1, 2] + [] == [6, 1, 2];
    r := Put(w, [6, 1, 2], r.n, max, goal, []);
    if !r.Wrote? { return; }
    assert w.Content() + [] == w.Content();
  }

  /** The descriptor of the decoder configuration. */
  method WriteDcd(w: TablesBuffer, asc: seq<byte>, dcd: u32, dcdLength: nat, length: nat, written: nat, max: nat, ghost goal: seq<byte>)
    returns (r: WriteResult)
    requires |asc| < TWO32 && length == |HighGroups(|asc|)| && dcdLength == |HighGroups(dcd)|
    requires w.Room(written, max) && w.Content() + DcdTail(dcd, |asc|, asc) == goal
    modifies w`offset, w.buf
    ensures w.offset <= w.buf.Length && old(w.Content()) <= w.Content()
    ensures GroupsFit(|asc|) && GroupsFit(dcd) ==> r == ByRoom(written, |DcdTail(dcd, |asc|, asc)|, max)
    ensures !(GroupsFit(|asc|) && GroupsFit(dcd)) ==> r == TreeResult(Some(DcdCut(dcd)), written, 0, max)
    ensures r.Wrote? ==> w.Content() == goal && w.offset == old(w.offset) + |DcdTail(dcd, |asc|, asc)|
  {
    hide Groups, HighGroups, DsiTail;
    ghost var tail := DsiTail(|asc|, asc);
    r := Put(w, [4], written, max, goal, Groups(dcd) + ([0x40, 0x15] + (ZEROES + tail)));
    if !r.Wrote? { return; }
    r := PutSize(w, dcd, dcdLength, r.n, max, goal, [0x40, 0x15] + (ZEROES + tail));
    if !r.Wrote? { return; }
    r := Put(w, [0x40, 0x15], r.n, max, goal, ZEROES + tail);
    if !r.Wrote? { return; }
    r := Put(w, ZEROES, r.n, max, goal, tail);
    if !r.Wrote? { return; }
    r := WriteDsi(w, asc, length, r.n, max, goal);
  }

  /** The start of the outermost descriptor: version, tag and length. */
  method WriteEsHead(w: TablesBuffer, es: u32, esLength: nat, written: nat, max: nat, ghost goal: seq<byte>, ghost rest: seq<byte>) returns (r: WriteResult)
    requires esLength == |HighGroups(es)| && w.Room(written, max)
    requires w.Content() + (BE32(0) + ([3] + (Groups(es) + rest))) == goal
    modifies w`offset, w.buf
    ensures w.offset <= w.buf.Length && old(w.Content()) <= w.Content()
    ensures r == if GroupsFit(es) then ByRoom(written, 5 + |Groups(es)|, max) else TreeResult(Some(5), written, 0, max)
    ensures r.Wrote? ==> w.Room(r.n, max) && w.Content() + rest == goal && w.offset == old(w.offset) + 5 + |Groups(es)|
  {
    hide Groups, HighGroups, BE32;
    r := Put32(w, 0, written, max, goal, [3] + (Groups(es) + rest));
    if !r.Wrote? { return; }
    r := Put(w, [3], r.n, max, goal, Groups(es) + rest);
    if !r.Wrote? { return; }
    r := PutSize(w, es, esLength, r.n, max, goal, rest);
  }

  /** Everything after the header of the box. */
  method WriteContent(w: TablesBuffer, asc: seq<byte>, id: nat, es: u32, esLength: nat, dcd: u32, dcdLength: nat, length: nat,
                      written: nat, max: nat, ghost goal: seq<byte>) returns (r: WriteResult)
    requires |asc| < TWO32 && length == |HighGroups(|asc|)| && dcdLength == |HighGroups(dcd)| && esLength == |HighGroups(es)|
    requires w.Room(written, max) && w.Content() + EsdsContent(es, dcd, |asc|, id % 0x1_0000, asc) == goal
    modifies w`offset, w.buf
    ensures w.offset <= w.buf.Length && old(w.Content()) <= w.Content()
    ensures var good := GroupsFit(|asc|) && GroupsFit(dcd) && GroupsFit(es);
            && (good ==> r == ByRoom(written, |EsdsContent(es, dcd, |asc|, id % 0x1_0000, asc)|, max))
            && (!good ==> r == TreeResult(Some(ContentCut(es, dcd)), written, 0, max))
    ensures r.Wrote? ==> w.Content() == goal && w.offset == old(w.offset) + |EsdsContent(es, dcd, |asc|, id % 0x1_0000, asc)|
  {
    hide Groups, HighGroups, DcdTail, BE32, BE16, DcdCut, GroupsFit;
    ghost var tail, id16 := DcdTail(dcd, |asc|, asc), id % 0x1_0000;
    r := WriteEsHead(w, es, esLength, written, max, goal, BE16(id16) + ([0] + tail));
    if !r.Wrote? { return; }
    r := Put16(w, id % 0x1_0000, r.n, max, goal, [0] + tail);
    if !r.Wrote? { return; }
    r := Put(w, [0], r.n, max, goal, tail);
    if !r.Wrote? { return; }
    r := WriteDcd(w, asc, dcd, dcdLength, length, r.n, max, goal);
  }

  /** The box with these lengths, which announces its size. */
  method WriteEsdsBox(w: TablesBuffer, asc: seq<byte>, id: nat, es: u32, esLength: nat, dcd: u32, dcdLength: nat, length: nat, max: nat)
    returns (r: WriteResult)
    requires |asc| < TWO32 && length == |HighGroups(|asc|)| && dcdLength == |HighGroups(dcd)| && esLength == |HighGroups(es)|
    requires w.Room(0, max) && 16 + es + esLength < TWO32
    modifies w`offset, w.buf
    ensures w.offset <= w.buf.Length && old(w.Content()) <= w.Content()
    ensures var good := GroupsFit(|asc|) && GroupsFit(dcd) && GroupsFit(es);
            var content := EsdsContent(es, dcd, |asc|, id % 0x1_0000, asc);
            && (good ==> r == ByRoom(0, 8 + |content|, max))
            && (!good ==> r == TreeResult(Some(8 + ContentCut(es, dcd)), 0, 0, max))
            && (r.Wrote? ==> r.n == 8 + |content| && w.offset == old(w.offset) + r.n)
            && (r.Wrote? ==> w.Content() == old(w.Content()) + (BE32(16 + es + esLength) + (BE32(ESDS) + content)))
  {
    hide Groups, HighGroups, EsdsContent, ContentCut, BE32;
    var boxSize := 16 + es + esLength;
    ghost var content := EsdsContent(es, dcd, |asc|, id % 0x1_0000, asc);
    ghost var goal := w.Content() + (BE32(boxSize) + (BE32(ESDS) + content));
    r := Put32(w, boxSize, 0, max, goal, BE32(ESDS) + content);
    if !r.Wrote? { return; }
    r := Put32(w, ESDS, r.n, max, goal, content);
    if !r.Wrote? { return; }
    r := WriteContent(w, asc, id, es, esLength, dcd, dcdLength, length, r.n, max, goal);
  }

  /**
     The audio configuration box. Its size, computed before anything is written, is
     what is written: it never needs patching.
  */
  method WriteEsds(w: TablesBuffer, id: nat, asc: seq<byte>, max: nat) returns (r: WriteResult)
    requires |asc| < TWO32 && w.Room(0, max)
    modifies w`offset, w.buf
    ensures w.offset <= w.buf.Length && old(w.Content()) <= w.Content()
    ensures AscFits(asc) ==> r == ByRoom(0, 16 + EsSize(asc) + |Groups(EsSize(asc))|, max)
    ensures !AscFits(asc) ==> r == TreeResult(Some(EsdsCut(asc)), 0, 0, max)
    ensures r.Wrote? ==> 16 + EsSize(asc) + |Groups(EsSize(asc))| < TWO32
    ensures r.Wrote? ==> w.Content() == old(w.Content()) + EsdsBytes(id % 0x1_0000, asc)
  {
    hide Groups, HighGroups, EsdsContent, BE32, BE16, AscFits, DcdSize, EsSize, ContentCut;
    if |asc| == 0 {
      EmptyNeverFits();
      return Invalid;
    }
    var length := SizeLength(|asc|);
    var dcd: u32 := (|asc| + length + 14) % TWO32;
    var dcdLength := SizeLength(dcd);
    var es: u32 := (dcd + dcdLength + 4) % TWO32;
    var esLength := SizeLength(es);
    WrappedSizes(asc, dcd, es);
    HighCount(es);
    if esLength > 4 { return Invalid; }
    if AscFits(asc) {
      FitsBox(asc);
      EsdsLength(id % 0x1_0000, asc);
    }
    r := WriteEsdsBox(w, asc, id, es, esLength, dcd, dcdLength, length, max);
    if r.Wrote? {
      GroupsOf(es);
      w.CheckSize(16 + es + esLength, r.n);
    }
  }

  // ---------- video ----------

  /** A set with its length, which is cut to 16 bits. */
  method PutSet(w: TablesBuffer, nal: seq<byte>, written: nat, max: nat, ghost goal: seq<byte>, ghost rest: seq<byte>) returns (r: WriteResult)
    requires w.Room(written, max) && w.Content() + (SetBytes(nal) + rest) == goal
    modifies w`offset, w.buf
    ensures w.offset <= w.buf.Length && old(w.Content()) <= w.Content()
    ensures r == ByRoom(written, 2 + |nal|, max)
    ensures r.Wrote? ==> w.Room(r.n, max) && w.Content() + rest == goal && w.offset == old(w.offset) + 2 + |nal|
  {
    hide BE16;
    assert SetBytes(nal) + rest == BE16(|nal| % 0x1_0000) + (nal + rest);
    r := Put16(w, |nal| % 0x1_0000, written, max, goal, nal + rest);
    if !r.Wrote? { return; }
    r := Put(w, nal, r.n, max, goal, rest);
  }

  /** The video configuration box; a sequence parameter set without profile and level is refused. */
  method WriteAvcc(w: TablesBuffer, sps: seq<byte>, pps: seq<byte>, max: nat) returns (r: WriteResult)
    requires w.Room(0, max)
    modifies w`offset, w.buf
    ensures w.offset <= w.buf.Length && old(w.Content()) <= w.Content()
    ensures r == if |sps| < 4 then Invalid else ByRoom(0, |AvccBytes(sps, pps)|, max)
    ensures r.Wrote? ==> w.Content() == old(w.Content()) + AvccBytes(sps, pps)
  {
    hide BE32, SetBytes, SetsTail, AvccContent, ByRoom;
    if |sps| < 4 { return Invalid; }
    var boxSize := 19 + |sps| + |pps|;
    ghost var goal := w.Content() + AvccBytes(sps, pps);
    r := Put32(w, boxSize % TWO32, 0, max, goal, BE32(AVCC) + AvccContent(sps, pps));
    RoomShort(0, 4, boxSize, max);
    if !r.Wrote? { return; }
    r := Put32(w, AVCC, r.n, max, goal, AvccContent(sps, pps));
    RoomShort(4, 4, boxSize, max);
    if !r.Wrote? { return; }
    r := WriteAvccContent(w, sps, pps, r.n, max, goal);
    RoomShort(8, 11 + |sps| + |pps|, boxSize, max);
    if !r.Wrote? { return; }
    w.CheckSize(boxSize, r.n);
  }

  /** A write that falls short makes the whole box fall short. */
  lemma RoomShort(written: nat, n: nat, total: nat, max: nat)
    requires written + n <= total
    ensures !ByRoom(written, n, max).Wrote? ==> ByRoom(written, n, max) == ByRoom(0, total, max)
    ensures ByRoom(written, n, max).Wrote? ==> ByRoom(written, n, max).n == written + n <= max
    ensures written + n == total ==> ByRoom(written, n, max) == ByRoom(0, total, max)
  {
  }

  method WriteAvccContent(w: TablesBuffer, sps: seq<byte>, pps: seq<byte>, written: nat, max: nat, ghost goal: seq<byte>) returns (r: WriteResult)
    requires |sps| >= 4 && w.Room(written, max) && w.Content() + AvccContent(sps, pps) == goal
    modifies w`offset, w.buf
    ensures w.offset <= w.buf.Length && old(w.Content()) <= w.Content()
    ensures r == ByRoom(written, 11 + |sps| + |pps|, max)
    ensures r.Wrote? ==> w.Content() == goal && w.offset == old(w.offset) + 11 + |sps| + |pps|
  {
    hide SetBytes;
    var lead := [1, sps[1], sps[2], sps[3]];
    r := Put(w, lead, written, max, goal, [0xff, 0xe1] + SetsTail(sps, pps));
    if !r.Wrote? { return; }
    r := Put(w, [0xff, 0xe1], r.n, max, goal, SetsTail(sps, pps));
    if !r.Wrote? { return; }
    r := PutSet(w, sps, r.n, max, goal, [1] + SetBytes(pps));
    if !r.Wrote? { return; }
    r := Put(w, [1], r.n, max, goal, SetBytes(pps));
    if !r.Wrote? { return; }
    assert SetBytes(pps) + [] == SetBytes(pps);
    r := PutSet(w, pps, r.n, max, goal, []);
    if !r.Wrote? { return; }
    assert w.Content() + [] == w.Content();
  }

  /** A parameter set of one kind. */
  method PutArray(w: TablesBuffer, code: byte, nal: seq<byte>, written: nat, max: nat, ghost goal: seq<byte>, ghost rest: seq<byte>) returns (r: WriteResult)
    requires w.Room(written, max) && w.Content() + (HvccArray(code, nal) + rest) == goal
    modifies w`offset, w.buf
    ensures w.offset <= w.buf.Length && old(w.Content()) <= w.Content()
    ensures r == ByRoom(written, 5 + |nal|, max)
    ensures r.Wrote? ==> w.Room(r.n, max) && w.Content() + rest == goal && w.offset == old(w.offset) + 5 + |nal|
  {
    hide BE16, SetBytes;
    assert HvccArray(code, nal) + rest == [code] + (BE16(1) + (SetBytes(nal) + rest));
    r := Put(w, [code], written, max, goal, BE16(1) + (SetBytes(nal) + rest));
    if !r.Wrote? { return; }
    r := Put16(w, 1, r.n, max, goal, SetBytes(nal) + rest);
    if !r.Wrote? { return; }
    r := PutSet(w, nal, r.n, max, goal, rest);
  }

  /** Everything after the header of the other video configuration. */
  method WriteHvccContent(w: TablesBuffer, info: seq<byte>, vps: seq<byte>, sps: seq<byte>, pps: seq<byte>, written: nat, max: nat) returns (r: WriteResult)
    requires w.Room(written, max)
    modifies w`offset, w.buf
    ensures w.offset <= w.buf.Length && old(w.Content()) <= w.Content()
    ensures r == ByRoom(written, |HvccContent(info, vps, sps, pps)|, max)
    ensures r.Wrote? ==> w.Content() == old(w.Content()) + HvccContent(info, vps, sps, pps)
  {
    hide HvccArray;
    ghost var goal := w.Content() + HvccContent(info, vps, sps, pps);
    ghost var a, b, c := HvccArray(0xA0, vps), HvccArray(0xA1, sps), HvccArray(0xA2, pps);
    r := Put(w, info, written, max, goal, [3] + (a + (b + c)));
    if !r.Wrote? { return; }
    r := Put(w, [3], r.n, max, goal, a + (b + c));
    if !r.Wrote? { return; }
    r := PutArray(w, 0xA0, vps, r.n, max, goal, b + c);
    if !r.Wrote? { return; }
    r := PutArray(w, 0xA1, sps, r.n, max, goal, c);
    if !r.Wrote? { return; }
    assert c + [] == c;
    r := PutArray(w, 0xA2, pps, r.n, max, goal, []);
    if !r.Wrote? { return; }
    assert w.Content() + [] == w.Content();
  }

  /** The size of a box is patched in once its content is written. */
  method PatchSize(w: TablesBuffer, kind: u32, n: nat, ghost before: seq<byte>, ghost rest: seq<byte>)
    requires w.offset <= w.buf.Length && n == 8 + |rest| && w.Content() == before + (BE32(0) + BE32(kind)) + rest
    modifies w.buf
    ensures w.Content() == before + Entry(kind, rest)
  {
    hide BE32;
    ghost var all := w.Content();
    assert |all| == |before| + n;
    assert all[..|before|] == before;
    assert all[|before| + 4..] == BE32(kind) + rest;
    w.CheckSize(0, n);
  }

  method WriteHvcc(w: TablesBuffer, info: seq<byte>, vps: seq<byte>, sps: seq<byte>, pps: seq<byte>, max: nat) returns (r: WriteResult)
    requires w.Room(0, max)
    modifies w`offset, w.buf
    ensures w.offset <= w.buf.Length && old(w.Content()) <= w.Content()
    ensures r == if |sps| < 4 then Invalid else ByRoom(0, |HvccBytes(info, vps, sps, pps)|, max)
    ensures r.Wrote? ==> w.Content() == old(w.Content()) + HvccBytes(info, vps, sps, pps)
  {
    hide BE32, HvccContent;
    if |sps| < 4 { return Invalid; }
    ghost var before := w.Content();
    r := w.WriteHeader(0, HVCC, max);
    if !r.Wrote? { return; }
    r := WriteHvccContent(w, info, vps, sps, pps, r.n, max);
    if !r.Wrote? { return; }
    PatchSize(w, HVCC, r.n, before, HvccContent(info, vps, sps, pps));
  }

  // ---------- sample descriptions ----------

  /** The decoder configuration of a video track. */
  method WriteCodec(w: TablesBuffer, c: J.Config, info: seq<byte>, max: nat) returns (r: WriteResult)
    requires (c.Avc? || c.Hevc?) && w.Room(0, max)
    modifies w`offset, w.buf
    ensures w.offset <= w.buf.Length && old(w.Content()) <= w.Content()
    ensures r == if Describable(J.Video, c) then ByRoom(0, |CodecBytes(c, info)|, max) else Invalid
    ensures r.Wrote? ==> w.Content() == old(w.Content()) + CodecBytes(c, info)
  {
    hide AvccBytes, HvccBytes, ByRoom;
    if c.Avc? {
      r := WriteAvcc(w, c.sps, c.pps, max);
    } else {
      r := WriteHvcc(w, info, c.vps, c.sps, c.pps, max);
    }
  }

  /** The part of a video entry that does not depend on the codec. */
  method WriteVisual(w: TablesBuffer, width: u32, height: u32, written: nat, max: nat) returns (r: WriteResult)
    requires w.Room(written, max)
    modifies w`offset, w.buf
    ensures w.offset <= w.buf.Length && old(w.Content()) <= w.Content()
    ensures r == ByRoom(written, 78, max)
    ensures r.Wrote? ==> w.Content() == old(w.Content()) + VisualHead(width, height)
  {
    hide BE32, BE16, Zeros, WordBytes, VisualWords;
    ghost var goal := w.Content() + VisualHead(width, height);
    r := w.WriteWords(VisualWords(width, height), written, max);
    if !r.Wrote? { return; }
    ghost var tail := Zeros(32) + BE32(0x18ffff);
    assert w.Content() + (BE16(1) + tail) == goal;
    r := Put16(w, 1, r.n, max, goal, tail);
    if !r.Wrote? { return; }
    r := Put(w, Zeros(32), r.n, max, goal, BE32(0x18ffff));
    if !r.Wrote? { return; }
    assert BE32(0x18ffff) + [] == BE32(0x18ffff);
    r := Put32(w, 0x18ffff, r.n, max, goal, []);
    if !r.Wrote? { return; }
    assert w.Content() + [] == w.Content();
  }

  /** A video entry: without a codec, it ends before its type. */
  method WriteVideoEntry(w: TablesBuffer, c: J.Config, info: seq<byte>, max: nat) returns (r: WriteResult)
    requires w.Room(0, max)
    modifies w`offset, w.buf
    ensures w.offset <= w.buf.Length && old(w.Content()) <= w.Content()
    ensures Describable(J.Video, c) ==> r == ByRoom(0, |EntryOf(J.Video, c, 0, info)|, max)
    ensures !Describable(J.Video, c) ==> r == TreeResult(Some(if c.Avc? || c.Hevc? then 86 else 4), 0, 0, max)
    ensures r.Wrote? ==> w.Content() == old(w.Content()) + EntryOf(J.Video, c, 0, info)
  {
    hide BE32, VisualHead, CodecBytes;
    if !c.Avc? && !c.Hevc? {
      r := w.Write32(0, 0, max);
      if r.Wrote? { r := Invalid; }
      return;
    }
    ghost var before := w.Content();
    var kind := if c.Avc? then J.AVC1 else J.HVC1;
    r := w.WriteHeader(0, kind, max);
    if !r.Wrote? { return; }
    r := WriteVisual(w, c.width, c.height, r.n, max);
    if !r.Wrote? { return; }
    var written := r.n;
    r := WriteCodec(w, c, info, max - written);
    if !r.Wrote? { return; }
    r := Wrote(written + r.n);
    PatchSize(w, kind, r.n, before, VisualHead(c.width, c.height) + CodecBytes(c, info));
  }

  /** An audio entry; a track whose configuration was never set has an empty one. */
  method WriteAudioEntry(w: TablesBuffer, c: J.Config, id: nat, max: nat) returns (r: WriteResult)
    requires (c.Aac? ==> |c.asc| < TWO32) && w.Room(0, max)
    modifies w`offset, w.buf
    ensures w.offset <= w.buf.Length && old(w.Content()) <= w.Content()
    ensures Describable(J.Audio, c) ==> r == ByRoom(0, |EntryOf(J.Audio, c, id, [])|, max)
    ensures !Describable(J.Audio, c) ==> r == TreeResult(Some(36 + if c.Aac? then EsdsCut(c.asc) else 0), 0, 0, max)
    ensures r.Wrote? ==> w.Content() == old(w.Content()) + EntryOf(J.Audio, c, id, [])
  {
    hide BE32, WordBytes, AudioWords, EsdsBytes, AscFits, EsSize, Groups, EsdsCut;
    NoConfiguration();
    ghost var before := w.Content();
    r := w.WriteHeader(0, MP4A, max);
    if !r.Wrote? { return; }
    r := w.WriteWords(AudioWords(if c.Aac? then c.sampleRate else 0), r.n, max);
    if !r.Wrote? { return; }
    var written := r.n;
    if c.Aac? && AscFits(c.asc) { EsdsLength(id % 0x1_0000, c.asc); }
    r := WriteEsds(w, id, if c.Aac? then c.asc else [], max - written);
    if !r.Wrote? { return; }
    r := Wrote(written + r.n);
    PatchSize(w, MP4A, r.n, before, AudioHead(c.sampleRate) + EsdsBytes(id % 0x1_0000, c.asc));
  }

  lemma NoConfiguration()
    ensures !AscFits([]) && EsdsCut([]) == 0
    ensures forall asc :: AscFits(asc) ==> 16 + EsSize(asc) + |Groups(EsSize(asc))| < TWO32
  {
    forall asc | AscFits(asc) ensures 16 + EsSize(asc) + |Groups(EsSize(asc))| < TWO32 {
      FitsBox(asc);
    }
  }

  /** An entry whose size is known from the start. */
  method WriteEntry(w: TablesBuffer, kind: u32, b: seq<byte>, max: nat) returns (r: WriteResult)
    requires w.Room(0, max)
    modifies w`offset, w.buf
    ensures w.offset <= w.buf.Length && old(w.Content()) <= w.Content()
    ensures r == ByRoom(0, 8 + |b|, max)
    ensures r.Wrote? ==> w.Content() == old(w.Content()) + Entry(kind, b)
  {
    hide BE32;
    var size := 8 + |b|;
    r := w.WriteHeader(size % TWO32, kind, max);
    if !r.Wrote? { return; }
    r := w.WriteBytes(b, r.n, max);
    if !r.Wrote? { return; }
    w.CheckSize(size, r.n);
  }

  /** The entry of a track of any type. */
  method WriteEntryOf(w: TablesBuffer, kind: J.TrackType, c: J.Config, id: nat, info: seq<byte>, max: nat) returns (r: WriteResult)
    requires (c.Aac? ==> |c.asc| < TWO32) && w.Room(0, max)
    modifies w`offset, w.buf
    ensures w.offset <= w.buf.Length && old(w.Content()) <= w.Content()
    ensures Describable(kind, c) ==> r == ByRoom(0, |EntryOf(kind, c, id, info)|, max)
    ensures !Describable(kind, c) ==> r == TreeResult(Some(StsdCut(kind, c) - 16), 0, 0, max)
    ensures r.Wrote? ==> w.Content() == old(w.Content()) + EntryOf(kind, c, id, info)
  {
    hide AscFits, EsdsCut, TextEntry, Text, BE16, BE32, VisualHead, CodecBytes, AudioHead, EsdsBytes, EsSize, Groups;
    match kind {
      case Video => r := WriteVideoEntry(w, c, info, max);
      case Audio => r := WriteAudioEntry(w, c, id, max);
      case Timed =>
        r := WriteEntry(w, METT, Zeros(6) + (BE16(1) + (if c.Mime? then Text(c.encoding) + Text(c.mime) else [0, 0])), max);
      case Chapters => r := WriteEntry(w, TEXT, TextEntry(), max);
    }
  }

  /**
     The sample description box of a track. It can be written exactly when the
     configuration of the track can be; if not, its writer gives up after `StsdCut`
     bytes, or earlier if there is no room for them.
  */
  method WriteStsd(w: TablesBuffer, kind: J.TrackType, c: J.Config, id: nat, info: seq<byte>, max: nat) returns (r: WriteResult)
    requires (c.Aac? ==> |c.asc| < TWO32) && w.Room(0, max)
    modifies w`offset, w.buf
    ensures w.offset <= w.buf.Length && old(w.Content()) <= w.Content()
    ensures Describable(kind, c) ==> r == ByRoom(0, 8 + |StsdContent(kind, c, id, info)|, max)
    ensures !Describable(kind, c) ==> r == TreeResult(Some(StsdCut(kind, c)), 0, 0, max)
    ensures r.Wrote? ==> w.Content() == old(w.Content()) + Entry(J.STSD, StsdContent(kind, c, id, info))
  {
    hide BE32, WordBytes, EntryOf, Describable;
    ghost var before := w.Content();
    r := w.WriteHeader(0, J.STSD, max);
    CutLong(kind, c);
    if !r.Wrote? { return; }
    r := w.WriteWords([0, 1], r.n, max);
    if !r.Wrote? { return; }
    var written := r.n;
    r := WriteEntryOf(w, kind, c, id, info, max - written);
    if !r.Wrote? { return; }
    r := Wrote(written + r.n);
    PatchSize(w, J.STSD, r.n, before, StsdContent(kind, c, id, info));
  }

  lemma CutLong(kind: J.TrackType, c: J.Config)
    ensures StsdCut(kind, c) >= 16
  {
  }
}
