/**
 Reading the journal back into a fresh muxer: one record after the other up to the
 committed length.
 */
module JournalReader {
  import opened Bytes
  import opened Wrappers
  import opened TimeTable
  import opened ChunkMap
  import opened Metadata
  import opened JournalFormat
  import opened JournalReplay
  import opened JournalFile
  import opened MuxTrack
  import opened Mux

  lemma LE16Inverse(b: seq<byte>)
    requires |b| == 2
    ensures LE16(FromLE16(b)) == b
  {
    var hi: int, lo: int := b[1], b[0];
    assert (hi * 0x100 + lo) / 0x100 == hi && (hi * 0x100 + lo) % 0x100 == lo;
  }

  lemma LE32Inverse(b: seq<byte>)
    requires |b| == 4
    ensures LE32(FromLE32(b)) == b
  {
    hide LE16, FromLE16;
    var hi: int, lo: int := FromLE16(b[2..]), FromLE16(b[..2]);
    assert FromLE32(b) / 0x1_0000 == hi && FromLE32(b) % 0x1_0000 == lo;
    LE16Inverse(b[..2]);
    LE16Inverse(b[2..]);
    assert b == b[..2] + b[2..];
  }

  // ---------- reading values ----------

  lemma Front(a: seq<byte>, t: seq<byte>)
    ensures (a + t)[..|a|] == a && (a + t)[|a|..] == t
  {
  }

  /** Whatever ends in `t` is longer than `t`. */
  lemma P32Front(x: u32, t: seq<byte>)
    ensures |P32(x, t)| == 4 + |t| && FromLE32(P32(x, t)[..4]) == x && P32(x, t)[4..] == t
  {
    hide LE32, FromLE32;
    Front(LE32(x), t);
  }

  lemma P64Front(x: u64, t: seq<byte>)
    ensures |P64(x, t)| == 8 + |t| && FromLE64(P64(x, t)[..8]) == x && P64(x, t)[8..] == t
  {
    hide LE64, FromLE64;
    Front(LE64(x), t);
  }

  class Cursor {
    const bytes: seq<byte>
    var pos: nat

    constructor (bytes: seq<byte>)
      ensures this.bytes == bytes && pos == 0
    {
      this.bytes, pos := bytes, 0;
    }

    ghost predicate Valid()
      reads `pos
    {
      pos <= |bytes|
    }

    function Rest(): seq<byte>
      requires pos <= |bytes|
      reads `pos
    {
      bytes[pos..]
    }

    lemma Ahead(from: nat, n: nat)
      requires from + n <= |bytes|
      ensures bytes[from..][..n] == bytes[from..from + n] && bytes[from..][n..] == bytes[from + n..]
    {
    }

    /** When `good`, the next bytes are the value `x`, and then `rest`. */
    method Read32(ghost good: bool, ghost x: u32, ghost rest: seq<byte>) returns (r: Option<u32>)
      requires Valid() && (good ==> Rest() == P32(x, rest))
      modifies `pos
      ensures Valid() && pos >= old(pos) && (r.Some? ==> pos == old(pos) + 4)
      ensures good ==> r == Some(x) && Rest() == rest
      ensures r.Some? ==> r.value == FromLE32(bytes[old(pos)..pos])
    {
      hide P32, FromLE32;
      P32Front(x, rest);
      if pos + 4 > |bytes| { pos := |bytes|; return None; }
      Ahead(pos, 4);
      pos := pos + 4;
      return Some(FromLE32(bytes[pos - 4..pos]));
    }

    method Read64(ghost good: bool, ghost x: u64, ghost rest: seq<byte>) returns (r: Option<u64>)
      requires Valid() && (good ==> Rest() == P64(x, rest))
      modifies `pos
      ensures Valid() && pos >= old(pos) && (r.Some? ==> pos == old(pos) + 8)
      ensures good ==> r == Some(x) && Rest() == rest
      ensures r.Some? ==> r.value == FromLE64(bytes[old(pos)..pos])
    {
      hide P64, FromLE64;
      P64Front(x, rest);
      if pos + 8 > |bytes| { pos := |bytes|; return None; }
      Ahead(pos, 8);
      pos := pos + 8;
      return Some(FromLE64(bytes[pos - 8..pos]));
    }

    method ReadBytes(n: nat, ghost good: bool, ghost b: seq<byte>, ghost rest: seq<byte>) returns (r: Option<seq<byte>>)
      requires Valid() && (good ==> Rest() == b + rest && |b| == n)
      modifies `pos
      ensures Valid() && pos >= old(pos) && (r.Some? ==> pos == old(pos) + n && |r.value| == n)
      ensures good ==> r == Some(b) && Rest() == rest
    {
      Front(b, rest);
      if pos + n > |bytes| { pos := |bytes|; return None; }
      Ahead(pos, n);
      pos := pos + n;
      return Some(bytes[pos - n..pos]);
    }

    /** A 32-bit length, no more than can be allocated, and the bytes. */
    method ReadArr32(ghost good: bool, ghost b: seq<byte>, ghost rest: seq<byte>) returns (r: Option<seq<byte>>)
      requires Valid() && (good ==> Rest() == PArr32(b, rest) && |b| <= MAX_ALLOC_SIZE)
      modifies `pos
      ensures Valid() && pos >= old(pos) && (r.Some? ==> pos == old(pos) + 4 + |r.value| && |r.value| <= MAX_ALLOC_SIZE)
      ensures good ==> r == Some(b) && Rest() == rest
    {
      hide P32;
      var size := Read32(good, |b| % TWO32, b + rest);
      if size.None? || size.value > MAX_ALLOC_SIZE { return None; }
      r := ReadBytes(size.value, good, b, rest);
    }

    /** The same with a length of the host's size type and a limit of its own. */
    method ReadArr64(limit: nat, ghost good: bool, ghost b: seq<byte>, ghost rest: seq<byte>) returns (r: Option<seq<byte>>)
      requires Valid() && limit < TWO32 && (good ==> Rest() == PArr64(b, rest) && |b| <= limit)
      modifies `pos
      ensures Valid() && pos >= old(pos) && (r.Some? ==> pos == old(pos) + 8 + |r.value| && |r.value| <= limit)
      ensures r.Some? ==> |r.value| == FromLE64(bytes[old(pos)..old(pos) + 8])
      ensures good ==> r == Some(b) && Rest() == rest
    {
      hide P64, FromLE64;
      var size := Read64(good, |b| % TWO64, b + rest);
      if size.None? || size.value > limit { return None; }
      r := ReadBytes(size.value, good, b, rest);
    }
  }

  // ---------- what has been recovered ----------

  /** The references are the ones a journal gives back. */
  ghost predicate RefsRead(refs: seq<u32>)
  {
    refs == RefsFrom(RefBytes(refs))
  }

  lemma NoRefsRead()
    ensures RefsRead([])
  {
    RefBytesLength([]);
  }

  /** Nothing of the track was ever journalled or timed by this muxer. */
  ghost predicate Idle(t: Track)
    reads t`writtenSamples, t`writtenChunks, t`writtenTimes, t`writtenChunkMap, t`writtenSyncs, t`metaWritten, t`lastDts, t`chunkMap, t`refs
  {
    && t.writtenSamples == 0 && t.writtenChunks == 0 && t.writtenTimes == 0 && t.writtenChunkMap == 0 && t.writtenSyncs == 0
    && t.metaWritten == 0 && t.lastDts == 0 && |t.chunkMap| == 1 && RefsRead(t.refs)
  }

  /** The tracks of a recovered recording are in the order of their handles. */
  ghost predicate InOrder(m: Mux)
    reads m`tracks, m`byHandle, m.tracks`writtenSamples, m.tracks`writtenChunks, m.tracks`writtenTimes, m.tracks`writtenChunkMap,
          m.tracks`writtenSyncs, m.tracks`metaWritten, m.tracks`lastDts, m.tracks`chunkMap, m.tracks`refs
  {
    && m.tracks == m.byHandle && m.HandlesOk() && |m.tracks| < TWO32
    && forall i :: 0 <= i < |m.tracks| ==> Idle(m.tracks[i])
  }

  ghost function Views(ts: seq<Track>): (v: seq<TrackLog>)
    ensures |v| == |ts| && forall i :: 0 <= i < |ts| ==> v[i] == ts[i].View()
    reads ts
  {
    seq(|ts|, i requires 0 <= i < |ts| reads ts => ts[i].View())
  }

  /** The recovered tables, as the replay of the journal speaks of them. */
  ghost function LogOf(m: Mux): Log
    reads m`tracks, m.tracks, m`metas, m`cover
  {
    Log(Views(m.tracks), m.metas, m.cover)
  }

  /** Only track `k` changed. */
  twostate lemma OneTrackRead(m: Mux, new k: nat)
    requires m.tracks == old(m.tracks) && m.metas == old(m.metas) && m.cover == old(m.cover) && k < |m.tracks| < TWO32
    requires forall i :: 0 <= i < |m.tracks| && i != k ==> m.tracks[i].View() == old(m.tracks[i].View())
    ensures Known(k + 1, old(LogOf(m))) && LogOf(m) == WithTrack(old(LogOf(m)), k + 1, m.tracks[k].View())
  {
    hide Track.View;
  }

  // ---------- entries ----------

  lemma ListFront<T>(put: (T, seq<byte>) -> seq<byte>, es: seq<T>, i: nat, rest: seq<byte>)
    requires i < |es|
    ensures PList(put, es[i..], rest) == put(es[i], PList(put, es[i + 1..], rest))
    ensures es[..i + 1] == es[..i] + [es[i]]
  {
    assert es[i..][1..] == es[i + 1..];
  }

  method ReadTtsEntry(c: Cursor, ghost good: bool, ghost e: TtsEntry, ghost rest: seq<byte>) returns (r: Option<TtsEntry>)
    requires c.Valid() && (good ==> c.Rest() == PTts(e, rest))
    modifies c`pos
    ensures c.Valid() && c.pos >= old(c.pos)
    ensures good ==> r == Some(e) && c.Rest() == rest
  {
    hide P32, P64;
    var count := c.Read32(good, e.count, P32(e.delta, rest));
    if count.None? { return None; }
    var delta := c.Read32(good, e.delta, rest);
    if delta.None? { return None; }
    return Some(TtsEntry(count.value, delta.value));
  }

  method ReadStcEntry(c: Cursor, ghost good: bool, ghost e: StcEntry, ghost rest: seq<byte>) returns (r: Option<StcEntry>)
    requires c.Valid() && (good ==> c.Rest() == PStc(e, rest))
    modifies c`pos
    ensures c.Valid() && c.pos >= old(c.pos)
    ensures good ==> r == Some(e) && c.Rest() == rest
  {
    hide P32, P64;
    var firstChunk := c.Read32(good, e.firstChunk, P32(e.samplesPerChunk, P32(e.description, rest)));
    if firstChunk.None? { return None; }
    var samplesPerChunk := c.Read32(good, e.samplesPerChunk, P32(e.description, rest));
    if samplesPerChunk.None? { return None; }
    var description := c.Read32(good, e.description, rest);
    if description.None? { return None; }
    return Some(StcEntry(firstChunk.value, samplesPerChunk.value, description.value));
  }

  method ReadSample(c: Cursor, ghost good: bool, ghost e: Sample, ghost rest: seq<byte>) returns (r: Option<Sample>)
    requires c.Valid() && (good ==> c.Rest() == PSample(e, rest))
    modifies c`pos
    ensures c.Valid() && c.pos >= old(c.pos)
    ensures good ==> r == Some(e) && c.Rest() == rest
  {
    hide P32, P64;
    var size := c.Read32(good, e.size, P64(e.offset, P64(e.dts, rest)));
    if size.None? { return None; }
    var offset := c.Read64(good, e.offset, P64(e.dts, rest));
    if offset.None? { return None; }
    var dts := c.Read64(good, e.dts, rest);
    if dts.None? { return None; }
    return Some(Sample(size.value, offset.value, dts.value));
  }

  method ReadSamples(c: Cursor, t: Track, number: u32, ghost good: bool, ghost es: seq<Sample>, ghost rest: seq<byte>) returns (ok: bool)
    requires c.Valid() && (good ==> |es| == number && c.Rest() == PList(PSample, es, rest))
    modifies c`pos, t`samples
    ensures c.Valid() && c.pos >= old(c.pos)
    ensures good ==> ok && c.Rest() == rest && t.samples == old(t.samples) + es
  {
    hide PSample;
    assert es[..0] == [];
    for i := 0 to number
      invariant c.Valid() && c.pos >= old(c.pos)
      invariant good ==> c.Rest() == PList(PSample, es[i..], rest) && t.samples == old(t.samples) + es[..i]
    {
      if good { ListFront(PSample, es, i, rest); }
      var e := ReadSample(c, good, if good then es[i] else Sample(0, 0, 0), PList(PSample, if good then es[i + 1..] else [], rest));
      if e.None? { return false; }
      t.samples := t.samples + [e.value];
    }
    if good { assert es[..number] == es && es[number..] == []; }
    return true;
  }

  method ReadSyncs(c: Cursor, t: Track, number: u32, ghost good: bool, ghost es: seq<u32>, ghost rest: seq<byte>) returns (ok: bool)
    requires c.Valid() && (good ==> |es| == number && c.Rest() == PList(P32, es, rest))
    modifies c`pos, t`syncs
    ensures c.Valid() && c.pos >= old(c.pos)
    ensures good ==> ok && c.Rest() == rest && t.syncs == old(t.syncs) + es
  {
    hide FromLE32;
    assert es[..0] == [];
    for i := 0 to number
      invariant c.Valid() && c.pos >= old(c.pos)
      invariant good ==> c.Rest() == PList(P32, es[i..], rest) && t.syncs == old(t.syncs) + es[..i]
    {
      if good { ListFront(P32, es, i, rest); }
      var e := c.Read32(good, if good then es[i] else 0, PList(P32, if good then es[i + 1..] else [], rest));
      if e.None? { return false; }
      t.syncs := t.syncs + [e.value];
    }
    if good { assert es[..number] == es && es[number..] == []; }
    return true;
  }

  method ReadChunks(c: Cursor, t: Track, number: u32, ghost good: bool, ghost es: seq<u64>, ghost rest: seq<byte>) returns (ok: bool)
    requires c.Valid() && (good ==> |es| == number && c.Rest() == PList(P64, es, rest))
    modifies c`pos, t`chunks
    ensures c.Valid() && c.pos >= old(c.pos)
    ensures good ==> ok && c.Rest() == rest && t.chunks == old(t.chunks) + es
  {
    hide FromLE32;
    assert es[..0] == [];
    for i := 0 to number
      invariant c.Valid() && c.pos >= old(c.pos)
      invariant good ==> c.Rest() == PList(P64, es[i..], rest) && t.chunks == old(t.chunks) + es[..i]
    {
      if good { ListFront(P64, es, i, rest); }
      var e := c.Read64(good, if good then es[i] else 0, PList(P64, if good then es[i + 1..] else [], rest));
      if e.None? { return false; }
      t.chunks := t.chunks + [e.value];
    }
    if good { assert es[..number] == es && es[number..] == []; }
    return true;
  }

  method ReadTimes(c: Cursor, t: Track, number: u32, ghost good: bool, ghost es: seq<TtsEntry>, ghost rest: seq<byte>) returns (ok: bool)
    requires c.Valid() && (good ==> |es| == number && c.Rest() == PList(PTts, es, rest))
    modifies c`pos, t`times
    ensures c.Valid() && c.pos >= old(c.pos)
    ensures good ==> ok && c.Rest() == rest && t.times == old(t.times) + es
  {
    hide PTts;
    assert es[..0] == [];
    for i := 0 to number
      invariant c.Valid() && c.pos >= old(c.pos)
      invariant good ==> c.Rest() == PList(PTts, es[i..], rest) && t.times == old(t.times) + es[..i]
    {
      if good { ListFront(PTts, es, i, rest); }
      var e := ReadTtsEntry(c, good, if good then es[i] else TtsEntry(0, 0), PList(PTts, if good then es[i + 1..] else [], rest));
      if e.None? { return false; }
      t.times := t.times + [e.value];
    }
    if good { assert es[..number] == es && es[number..] == []; }
    return true;
  }

  /** The muxer's table has room for more than the one entry it starts with, so every entry read replaces that one. */
  method ReadChunkMap(c: Cursor, t: Track, number: u32, ghost good: bool, ghost es: seq<StcEntry>, ghost rest: seq<byte>) returns (ok: bool)
    requires c.Valid() && |t.chunkMap| == 1 && (good ==> |es| == number && c.Rest() == PList(PStc, es, rest))
    modifies c`pos, t`chunkMap
    ensures c.Valid() && c.pos >= old(c.pos) && |t.chunkMap| == 1
    ensures good ==> ok && c.Rest() == rest && t.chunkMap == LastEntry(old(t.chunkMap), es)
  {
    hide PStc;
    assert es[..0] == [];
    for i := 0 to number
      invariant c.Valid() && c.pos >= old(c.pos) && |t.chunkMap| == 1
      invariant good ==> c.Rest() == PList(PStc, es[i..], rest)
      invariant good ==> t.chunkMap == LastEntry(old(t.chunkMap), es[..i])
    {
      if good { ListFront(PStc, es, i, rest); }
      var e := ReadStcEntry(c, good, if good then es[i] else StcEntry(0, 0, 0), PList(PStc, if good then es[i + 1..] else [], rest));
      if e.None? { return false; }
      t.chunkMap := t.chunkMap[|t.chunkMap| - 1 := e.value];
      if good { assert t.chunkMap == [es[i]]; }
    }
    if good { assert es[..number] == es && es[number..] == []; }
    return true;
  }

  // ---------- references ----------

  /** The handles a track gets from the bytes journalled for its references: one per byte, from as many bytes and then zeros. */
  function RefsFrom(b: seq<byte>): (refs: seq<u32>)
    ensures |refs| == |b|
  {
    var padded := Padded(b);
    seq(|b|, i requires 0 <= i < |b| => FromLE32(padded[4 * i..4 * i + 4]))
  }

  function Padded(b: seq<byte>): (p: seq<byte>)
    ensures |p| == 4 * |b| && b <= p
  {
    b + seq(3 * |b|, _ => 0)
  }

  lemma {:induction false} RefsOfBytes(p: seq<byte>, refs: seq<u32>)
    requires |p| == 4 * |refs| && forall i :: 0 <= i < |refs| ==> refs[i] == FromLE32(p[4 * i..4 * i + 4])
    ensures PList(P32, refs, []) == p
    decreases |refs|
  {
    hide FromLE32, LE32;
    if refs != [] {
      assert refs[0] == FromLE32(p[0..4]);
      LE32Inverse(p[..4]);
      assert p[0..4] == p[..4];
      forall i | 0 <= i < |refs| - 1 ensures refs[1..][i] == FromLE32(p[4..][4 * i..4 * i + 4]) {
        assert p[4..][4 * i..4 * i + 4] == p[4 * (i + 1)..4 * (i + 1) + 4];
      }
      RefsOfBytes(p[4..], refs[1..]);
      assert p == p[..4] + p[4..];
    }
  }

  /** The references read back are journalled as the same bytes again. */
  lemma RefBytesOfRefs(b: seq<byte>)
    ensures RefBytes(RefsFrom(b)) == b
  {
    hide FromLE32;
    RefsOfBytes(Padded(b), RefsFrom(b));
    assert Padded(b)[..|b|] == b;
  }

  lemma {:induction false} RefAt(refs: seq<u32>, i: nat)
    requires i < |refs|
    ensures |PList(P32, refs, [])| == 4 * |refs| && PList(P32, refs, [])[4 * i..4 * i + 4] == LE32(refs[i])
    decreases |refs|
  {
    hide LE32;
    RefListLength(refs);
    RefListLength(refs[1..]);
    var rest := PList(P32, refs[1..], []);
    assert PList(P32, refs, []) == LE32(refs[0]) + rest;
    if i > 0 {
      RefAt(refs[1..], i - 1);
      assert (LE32(refs[0]) + rest)[4 * i..4 * i + 4] == rest[4 * (i - 1)..4 * (i - 1) + 4];
    }
  }

  /** One byte of a single handle comes back; of two or more, at least the last is lost. */
  lemma RefsReturned(refs: seq<u32>)
    ensures |RefBytes(refs)| == |refs|
    ensures |refs| == 1 ==> RefsFrom(RefBytes(refs)) == [refs[0] % 0x100]
    ensures |refs| >= 2 ==> RefsFrom(RefBytes(refs))[|refs| - 1] == 0
  {
    hide PList;
    RefBytesLength(refs);
    var b := RefBytes(refs);
    var p := Padded(b);
    if |refs| == 1 {
      RefAt(refs, 0);
      assert PList(P32, refs, [])[0..4] == LE32(refs[0]);
      assert b[0] == PList(P32, refs, [])[0] == LE32(refs[0])[0] == refs[0] % 0x1_0000 % 0x100;
      assert p == [b[0], 0, 0, 0];
      assert p[0..4] == p;
      assert RefsFrom(b)[0] == b[0];
    } else if |refs| >= 2 {
      var last := |refs| - 1;
      assert p[4 * last..4 * last + 4] == [0, 0, 0, 0];
      assert RefsFrom(b)[last] == 0;
    }
  }

  /** Only the bytes of the first quarter of the handles are journalled: they survive only if there are none, or one below 256. */
  lemma RefsSurvive(refs: seq<u32>)
    requires forall i :: 0 <= i < |refs| ==> refs[i] != 0
    ensures RefsFrom(RefBytes(refs)) == refs <==> refs == [] || (|refs| == 1 && refs[0] < 0x100)
  {
    hide RefsFrom, RefBytes;
    RefBytesLength(refs);
    RefsReturned(refs);
  }

  // ---------- records ----------

  /** How the reading of a record ends: a minor failure stops the replay, a fatal one the recovery. */
  datatype ReadStatus = Read | Minor | Fatal

  predicate IsTableTag(tag: u32)
  {
    tag == STTS || tag == STSS || tag == STSC || tag == STSZ || tag == STCO || tag == CO64
  }

  /** What a table record does to its track. */
  function Entered(r: Record, c: TrackLog): TrackLog
  {
    match r
    case Stss(_, es) => c.(syncs := c.syncs + es)
    case Stsz(_, es) => c.(samples := c.samples + es)
    case Stco(_, _, es) => c.(chunks := c.chunks + es)
    case Stsc(_, es) => c.(chunkMap := LastEntry(c.chunkMap, es))
    case _ => c
  }

  lemma ApplyTable(r: Record, log: Log)
    requires Replayable(r, log) && IsTableTag(Tag(r))
    ensures Known(r.handle, log) && Apply(r, log) == WithTrack(log, r.handle, Entered(r, log.tracks[r.handle - 1]))
  {
    hide ValidKey, GoodConfig, GoodInfo;
    if r.Stts? {
      assert log.tracks[r.handle - 1 := log.tracks[r.handle - 1]] == log.tracks;
    }
  }

  /** The entries of a table record. */
  method ReadEntries(c: Cursor, t: Track, tag: u32, number: u32, ghost good: bool, ghost r: Record, ghost rest: seq<byte>)
    returns (ok: bool)
    requires c.Valid() && IsTableTag(tag) && Idle(t)
    requires good ==> Tag(r) == tag && Number(r) == number && c.Rest() == PBody(r, rest)
    modifies c`pos, t`samples, t`chunks, t`syncs, t`times, t`chunkMap
    ensures c.Valid() && c.pos >= old(c.pos) && Idle(t)
    ensures good ==> ok && c.Rest() == rest && t.View() == Entered(r, old(t.View()))
  {
    hide PList, RefBytes, RefsRead;
    if tag == STSZ {
      ok := ReadSamples(c, t, number, good, if good then r.samples else [], rest);
    } else if tag == STSS {
      ok := ReadSyncs(c, t, number, good, if good then r.numbers else [], rest);
    } else if tag == STSC {
      ok := ReadChunkMap(c, t, number, good, if good then r.chunks else [], rest);
    } else if tag == STTS {
      ok := ReadTimes(c, t, number, good, if good then r.times else [], rest);
    } else {
      ok := ReadChunks(c, t, number, good, if good then r.offsets else [], rest);
    }
  }

  /** Tracks other than `k` are different objects. */
  lemma OthersApart(m: Mux, k: nat)
    requires InOrder(m) && k < |m.tracks|
    ensures forall i :: 0 <= i < |m.tracks| && i != k ==> m.tracks[i] != m.tracks[k]
    ensures m.byHandle[k] == m.tracks[k] && |m.byHandle| == |m.tracks|
  {
  }

  /** The table records: the entries go to the track with the handle, if there is one. */
  method ReadTable(m: Mux, c: Cursor, handle: u32, tag: u32, number: u32, ghost good: bool, ghost r: Record, ghost rest: seq<byte>)
    returns (ok: bool)
    requires InOrder(m) && c.Valid() && IsTableTag(tag)
    requires good ==> Tag(r) == tag && HandleOf(r) == handle && Number(r) == number && c.Rest() == PBody(r, rest)
    modifies c`pos, m.tracks`samples, m.tracks`chunks, m.tracks`syncs, m.tracks`times, m.tracks`chunkMap
    ensures c.Valid() && c.pos >= old(c.pos) && InOrder(m)
    ensures good && Replayable(r, old(LogOf(m))) ==> ok && c.Rest() == rest && LogOf(m) == Apply(r, old(LogOf(m)))
  {
    hide PBody, Permuted, Track.View, Number, Replayable, Apply, Entered, RefBytes, RefsRead;
    if good && Replayable(r, LogOf(m)) { ApplyTable(r, LogOf(m)); }
    var found := m.FindByHandle(handle);
    if found.None? { return false; }
    ghost var k: nat := handle - 1;
    OthersApart(m, k);
    ok := ReadEntries(c, found.value, tag, number, good, r, rest);
    OneTrackRead(m, k);
  }

  /** A new track, or new references for one there is. */
  method PlaceTrack(m: Mux, handle: u32, info: TrackInfo, code: u32) returns (t: Option<Track>)
    requires InOrder(m) && info.created >= EPOCH_OFFSET && info.modified >= EPOCH_OFFSET && info.flags < 8
    requires TypeFromCode(code).Some? ==> TypeFromCode(code).value == info.kind
    modifies m`tracks, m`byHandle
    ensures InOrder(m) && old(m.tracks) <= m.tracks && |m.tracks| <= |old(m.tracks)| + 1
    ensures t.Some? ==> 1 <= handle <= |m.tracks| && t.value == m.tracks[handle - 1]
    ensures forall i :: |old(m.tracks)| <= i < |m.tracks| ==> fresh(m.tracks[i])
    ensures 1 <= handle <= |old(m.tracks)| ==> t.Some? && m.tracks == old(m.tracks)
    ensures handle == |old(m.tracks)| + 1 < TWO32 && info.timescale > 0 && TypeFromCode(code).Some? ==>
              && t.Some? && m.tracks == old(m.tracks) + [t.value] && fresh(t.value)
              && t.value.info == info && t.value.State() == Mux.NewState(handle, info)
  {
    hide Track.State, Permuted, Track.Valid, Mux.HandlesOk, GoodInfo, ClipInfo, RefsRead;
    OrderFacts(m);
    t := m.FindByHandle(handle);
    if t.None? {
      if |m.tracks| == TWO32 - 1 { return None; }
      var added := m.AppendTrack(code, info.name, info.flags, info.timescale, info.created - EPOCH_OFFSET, info.modified - EPOCH_OFFSET);
      if added.Some? { NewIsIdle(added.value); }
      t := m.FindByHandle(handle);
      if added.Some? && t.Some? { HandleIsPlace(m, handle); }
    } else {
      HandleIsPlace(m, handle);
    }
  }

  lemma NewIsIdle(t: Track)
    requires t.State() == Mux.NewState(t.handle, t.info) && t.lastDts == 0
    ensures Idle(t)
  {
    hide RefsRead;
    NoRefsRead();
  }

  lemma OrderFacts(m: Mux)
    requires InOrder(m)
    ensures m.HandlesOk() && |m.byHandle| == |m.tracks|
  {
  }

  lemma HandleIsPlace(m: Mux, handle: u32)
    requires m.tracks == m.byHandle && m.HandlesOk() && 1 <= handle <= |m.byHandle|
    ensures m.byHandle[handle - 1] == m.tracks[handle - 1]
  {
  }

  lemma TypeCodes(kind: TrackType)
    ensures TypeFromCode(TypeCode(kind)) == Some(kind)
  {
  }

  datatype TrackFields = Fields(code: u32, info: TrackInfo)

  /** The description in a track record, up to the references. */
  method ReadTrackInfo(c: Cursor, ghost good: bool, ghost info: TrackInfo, ghost rest: seq<byte>) returns (r: Option<TrackFields>)
    requires c.Valid() && (good ==> c.Rest() == PInfo(info, rest) && GoodInfo(info))
    modifies c`pos
    ensures c.Valid() && c.pos >= old(c.pos)
    ensures good ==> r == Some(Fields(TypeCode(info.kind), info)) && c.Rest() == rest
    ensures r.Some? ==> var i := r.value.info; i.created >= EPOCH_OFFSET && i.modified >= EPOCH_OFFSET && i.flags < 8
    ensures r.Some? && TypeFromCode(r.value.code).Some? ==> r.value.info.kind == TypeFromCode(r.value.code).value
  {
    hide P32, P64, PArr32, TypeCode;
    TypeCodes(info.kind);
    ghost var p5 := P64(info.modified, rest);
    ghost var p4 := P64(info.created, p5);
    ghost var p3 := P32(info.timescale, p4);
    ghost var p2 := P32(info.flags, p3);
    var code := c.Read32(good, TypeCode(info.kind), PArr32(info.name, p2));
    if code.None? { return None; }
    var name := c.ReadArr32(good, info.name, p2);
    if name.None? { return None; }
    var flags := c.Read32(good, info.flags, p3);
    if flags.None? { return None; }
    var timescale := c.Read32(good, info.timescale, p4);
    if timescale.None? { return None; }
    var created := c.Read64(good, info.created, p5);
    if created.None? || created.value < EPOCH_OFFSET { return None; }
    var modified := c.Read64(good, info.modified, rest);
    if modified.None? || modified.value < EPOCH_OFFSET { return None; }
    var kind := TypeFromCode(code.value);
    var i := TrackInfo(if kind.Some? then kind.value else Video, name.value, flags.value % 8, timescale.value, created.value, modified.value);
    return Some(Fields(code.value, i));
  }

  /** The log with the track of the record in place, before its references are read. */
  ghost predicate Placed(log: Log, before: Log, k: nat, info: TrackInfo)
  {
    if k < |before.tracks| then log == before
    else
      && k == |before.tracks| && log == before.(tracks := log.tracks) && |log.tracks| == k + 1 && log.tracks[..k] == before.tracks
      && log.tracks[k] == TrackLog(info, InitialConfig(info.kind), log.tracks[k].refs, [], [], [], ONE_PER_CHUNK, [])
  }

  lemma PlacedReplays(log: Log, before: Log, k: nat, info: TrackInfo, refs: seq<byte>)
    requires Placed(log, before, k, info) && k < |log.tracks| < TWO32 && Replayable(Trak(k + 1, info, refs), before)
    ensures WithTrack(log, k + 1, log.tracks[k].(refs := refs)) == Apply(Trak(k + 1, info, refs), before)
  {
    hide GoodInfo;
  }

  /** Adding a track to the list adds it to the log. */
  twostate lemma TrackPlaced(m: Mux, new k: nat, new info: TrackInfo)
    requires m.metas == old(m.metas) && m.cover == old(m.cover) && k < |m.tracks| < TWO32
    requires if k < |old(m.tracks)| then m.tracks == old(m.tracks)
             else |m.tracks| == k + 1 && m.tracks[..k] == old(m.tracks) && m.tracks[k].State() == Mux.NewState(k + 1, info) && m.tracks[k].info == info
    requires forall i :: 0 <= i < |old(m.tracks)| ==> unchanged(old(m.tracks)[i])
    ensures Placed(LogOf(m), old(LogOf(m)), k, info)
  {
    hide RefBytes;
    if k >= |old(m.tracks)| {
      assert LogOf(m).tracks[..k] == old(LogOf(m)).tracks;
    }
  }

  /** The references end the record. */
  method ReadRefs(m: Mux, c: Cursor, k: nat, ghost sound: bool, ghost before: Log, ghost info: TrackInfo, ghost refs: seq<byte>, ghost rest: seq<byte>)
    returns (ok: bool)
    requires InOrder(m) && c.Valid() && k < |m.tracks|
    requires sound ==>
      && c.Rest() == PArr64(refs, rest) && Placed(LogOf(m), before, k, info) && Replayable(Trak(k + 1, info, refs), before)
    modifies c`pos, {m.tracks[k]}`refs
    ensures c.Valid() && c.pos >= old(c.pos) && InOrder(m)
    ensures sound ==> ok && c.Rest() == rest && LogOf(m) == Apply(Trak(k + 1, info, refs), before)
  {
    hide PArr64, Permuted, RefBytes, RefsFrom, Apply, Placed, GoodInfo;
    OthersApart(m, k);
    var bytes := c.ReadArr64(REFS_SIZE, sound, refs, rest);
    if bytes.None? { return false; }
    if sound { PlacedReplays(LogOf(m), before, k, info, refs); }
    m.tracks[k].refs := RefsFrom(bytes.value);
    RefBytesOfRefs(bytes.value);
    OneTrackRead(m, k);
    return true;
  }

  /** A track record: every failure is fatal. */
  method ReadTrack(m: Mux, c: Cursor, handle: u32, ghost good: bool, ghost info: TrackInfo, ghost refs: seq<byte>, ghost rest: seq<byte>)
    returns (ok: bool)
    requires InOrder(m) && c.Valid()
    requires good ==> c.Rest() == PInfo(info, PArr64(refs, rest)) && |m.tracks| < TWO32 - 1
    modifies c`pos, m`tracks, m`byHandle, m.tracks`refs
    ensures c.Valid() && c.pos >= old(c.pos) && InOrder(m) && |m.tracks| <= |old(m.tracks)| + 1 && old(m.tracks) <= m.tracks
    ensures forall i :: |old(m.tracks)| <= i < |m.tracks| ==> fresh(m.tracks[i])
    ensures good && Replayable(Trak(handle, info, refs), old(LogOf(m))) ==>
              ok && c.Rest() == rest && LogOf(m) == Apply(Trak(handle, info, refs), old(LogOf(m)))
  {
    hide PInfo, PArr64, Permuted, Track.View, Track.State, RefsFrom, LogOf, Apply, InOrder, Placed;
    LogLength(m);
    ghost var sound, before := good && Replayable(Trak(handle, info, refs), LogOf(m)), LogOf(m);
    var fields := ReadTrackInfo(c, sound, info, PArr64(refs, rest));
    if fields.None? { return false; }
    TypeCodes(info.kind);
    var t := PlaceTrack(m, handle, fields.value.info, fields.value.code);
    if t.None? { return false; }
    var k: nat := handle - 1;
    if sound { TrackPlaced(m, k, info); }
    ok := ReadRefs(m, c, k, sound, before, info, refs, rest);
  }

  lemma ViewAt(m: Mux, k: nat)
    requires k < |m.tracks|
    ensures k < |LogOf(m).tracks| && LogOf(m).tracks[k] == m.tracks[k].View()
  {
  }

  lemma LogLength(m: Mux)
    ensures |LogOf(m).tracks| == |m.tracks|
  {
  }

  // ---------- configuration, metadata, cover ----------

  /** A configuration for HEVC whose first set is not there, or cannot be that long. */
  predicate Headless(bytes: seq<byte>, at: nat)
  {
    && at + 4 <= |bytes| && FromLE32(bytes[at..at + 4]) == HVC1
    && (at + 12 > |bytes| || FromLE64(bytes[at + 4..at + 12]) > MAX_ALLOC_SIZE)
  }

  method ReadVideoConfig(c: Cursor, ghost good: bool, ghost config: Config, ghost rest: seq<byte>) returns (r: Option<Config>)
    requires c.Valid() && (good ==> c.Rest() == PConfig(config, rest) && GoodConfig(Video, config))
    modifies c`pos
    ensures c.Valid() && c.pos >= old(c.pos) && (good ==> r == Some(config) && c.Rest() == rest)
    ensures Headless(c.bytes, old(c.pos)) ==> r.None?
  {
    hide P32, PArr64, FromLE32, FromLE64;
    ghost var hevc := good && config.Hevc?;
    ghost var width, height := if good then config.width else 0, if good then config.height else 0;
    ghost var sizes := P32(width, P32(height, rest));
    ghost var after := if hevc then PArr64(config.vps, sizes) else sizes;
    ghost var sps, pps := if good then config.sps else [], if good then config.pps else [];
    var codec := c.Read32(good, if hevc then HVC1 else AVC1, PArr64(sps, PArr64(pps, after)));
    if codec.None? || (codec.value != AVC1 && codec.value != HVC1) { return None; }
    var s := c.ReadArr64(MAX_ALLOC_SIZE, good, sps, PArr64(pps, after));
    if s.None? { return None; }
    var p := c.ReadArr64(MAX_ALLOC_SIZE, good, pps, after);
    if p.None? { return None; }
    var v := Some([]);
    if codec.value == HVC1 {
      v := c.ReadArr64(MAX_ALLOC_SIZE, good, if hevc then config.vps else [], sizes);
      if v.None? { return None; }
    }
    var w := c.Read32(good, width, P32(height, rest));
    if w.None? { return None; }
    var h := c.Read32(good, height, rest);
    if h.None? { return None; }
    return Some(if codec.value == HVC1 then Hevc(s.value, p.value, v.value, w.value, h.value) else Avc(s.value, p.value, w.value, h.value));
  }

  method ReadAudioConfig(c: Cursor, ghost good: bool, ghost config: Config, ghost rest: seq<byte>) returns (r: Option<Config>)
    requires c.Valid() && (good ==> c.Rest() == PConfig(config, rest) && GoodConfig(Audio, config))
    modifies c`pos
    ensures c.Valid() && c.pos >= old(c.pos) && (good ==> r == Some(config) && c.Rest() == rest)
  {
    hide P32, PArr32;
    ghost var e := if good then config else Aac(0, [], 0, 0, 0);
    ghost var p3 := P32(e.channels, P32(e.sampleSize, P32(e.sampleRate, rest)));
    var codec := c.Read32(good, e.codec, PArr32(e.asc, p3));
    if codec.None? { return None; }
    var asc := c.ReadArr32(good, e.asc, p3);
    if asc.None? { return None; }
    var channels := c.Read32(good, e.channels, P32(e.sampleSize, P32(e.sampleRate, rest)));
    if channels.None? { return None; }
    var size := c.Read32(good, e.sampleSize, P32(e.sampleRate, rest));
    if size.None? { return None; }
    var rate := c.Read32(good, e.sampleRate, rest);
    if rate.None? { return None; }
    return Some(Aac(codec.value, asc.value, channels.value, size.value, rate.value));
  }

  method ReadMimeConfig(c: Cursor, ghost good: bool, ghost config: Config, ghost rest: seq<byte>) returns (r: Option<Config>)
    requires c.Valid() && (good ==> c.Rest() == PConfig(config, rest) && GoodConfig(Timed, config))
    modifies c`pos
    ensures c.Valid() && c.pos >= old(c.pos) && (good ==> r == Some(config) && c.Rest() == rest)
  {
    hide P32, PArr32;
    ghost var e := if good then config else Mime([], []);
    var encoding := c.ReadArr32(good, e.encoding, PArr32(e.mime, rest));
    if encoding.None? { return None; }
    var mime := c.ReadArr32(good, e.mime, rest);
    if mime.None? { return None; }
    return Some(Mime(encoding.value, mime.value));
  }

  /** The configuration in a sample description, by the type of the track; a chapter track has none. */
  method ReadConfig(c: Cursor, kind: TrackType, had: Config, ghost good: bool, ghost config: Config, ghost rest: seq<byte>) returns (r: Option<Config>)
    requires c.Valid() && (good ==> c.Rest() == PConfig(config, rest) && GoodConfig(kind, config))
    requires good && kind.Chapters? ==> had.NoConfig?
    modifies c`pos
    ensures c.Valid() && c.pos >= old(c.pos) && (good ==> r == Some(config) && c.Rest() == rest)
    ensures kind.Video? && Headless(c.bytes, old(c.pos)) ==> r.None?
  {
    hide Headless;
    match kind
    case Video => r := ReadVideoConfig(c, good, config, rest);
    case Audio => r := ReadAudioConfig(c, good, config, rest);
    case Timed => r := ReadMimeConfig(c, good, config, rest);
    case Chapters => r := Some(had);
  }

  /** A recovered chapter track has no configuration. */
  predicate ChaptersPlain(log: Log)
  {
    forall i :: 0 <= i < |log.tracks| && log.tracks[i].info.kind.Chapters? ==> log.tracks[i].config.NoConfig?
  }

  /** There are no tracks but video tracks. */
  predicate OnlyVideo(m: Mux)
    reads m`tracks
  {
    forall i :: 0 <= i < |m.tracks| ==> m.tracks[i].info.kind.Video?
  }

  method ReadStsd(m: Mux, c: Cursor, handle: u32, ghost good: bool, ghost config: Config, ghost rest: seq<byte>) returns (ok: bool)
    requires InOrder(m) && c.Valid() && (good ==> c.Rest() == PConfig(config, rest) && ChaptersPlain(LogOf(m)))
    modifies c`pos, m.tracks`config
    ensures c.Valid() && c.pos >= old(c.pos) && InOrder(m)
    ensures good && Replayable(Stsd(handle, config), old(LogOf(m))) ==>
              ok && c.Rest() == rest && LogOf(m) == Apply(Stsd(handle, config), old(LogOf(m)))
    ensures OnlyVideo(m) && Headless(c.bytes, old(c.pos)) ==> !ok
  {
    hide PConfig, GoodConfig, Permuted, RefBytes, RefsRead, Headless;
    ghost var sound := good && Replayable(Stsd(handle, config), LogOf(m));
    var found := m.FindByHandle(handle);
    if found.None? { return false; }
    var t := found.value;
    ghost var k: nat := handle - 1;
    OthersApart(m, k);
    assert LogOf(m).tracks[k] == t.View();
    var r := ReadConfig(c, t.info.kind, t.config, sound, config, rest);
    if r.None? { return false; }
    t.config := r.value;
    OneTrackRead(m, k);
    return true;
  }

  method ReadKeyValue(c: Cursor, ghost good: bool, ghost storage: u32, ghost e: Meta, ghost rest: seq<byte>) returns (r: Option<Meta>)
    requires c.Valid()
    requires good ==> c.Rest() == P32(storage, PArr32(e.key, PArr32(e.value, rest))) && |e.key| <= MAX_ALLOC_SIZE && |e.value| <= MAX_ALLOC_SIZE
    modifies c`pos
    ensures c.Valid() && c.pos >= old(c.pos) && (good ==> r == Some(e) && c.Rest() == rest)
  {
    hide P32, PArr32;
    var s := c.Read32(good, storage, PArr32(e.key, PArr32(e.value, rest)));
    if s.None? { return None; }
    var key := c.ReadArr32(good, e.key, PArr32(e.value, rest));
    if key.None? { return None; }
    var value := c.ReadArr32(good, e.value, rest);
    if value.None? { return None; }
    return Some(Meta(key.value, value.value));
  }

  /** Metadata of a track, added the way a user adds it. */
  method AddReadMeta(m: Mux, handle: u32, e: Meta) returns (ok: bool)
    requires InOrder(m) && handle > 0
    modifies m.tracks`metas, m.tracks`metaWritten
    ensures InOrder(m)
    ensures Known(handle, old(LogOf(m))) && ValidKey(e.key) ==>
              var t := old(LogOf(m)).tracks[handle - 1];
              ok && LogOf(m) == WithTrack(old(LogOf(m)), handle, t.(metas := Add(t.metas, e.key, e.value, true)))
  {
    hide ValidKey, Permuted, RefBytes, Add, IndexOf, Mux.HandlesOk, LogOf, RefsRead;
    OrderFacts(m);
    LogLength(m);
    var t := m.FindByHandle(handle);
    if t.None? { return false; }
    ghost var k: nat := handle - 1;
    OthersApart(m, k);
    ViewAt(m, k);
    var l, found := AddMetadata(t.value.metas, e.key, e.value, true);
    if l.None? { return false; }
    t.value.metas := l.value;
    if found { t.value.metaWritten := 0; }
    OneTrackRead(m, k);
    return true;
  }

  method AddReadFileMeta(m: Mux, e: Meta) returns (ok: bool)
    requires InOrder(m)
    modifies m`metas
    ensures InOrder(m)
    ensures ValidKey(e.key) ==> ok && LogOf(m) == old(LogOf(m)).(metas := Add(old(LogOf(m)).metas, e.key, e.value, true))
  {
    hide ValidKey, Add, IndexOf, Views, Permuted;
    var l, found := AddMetadata(m.metas, e.key, e.value, true);
    if l.None? { return false; }
    m.metas := l.value;
    return true;
  }

  method ReadMeta(m: Mux, c: Cursor, handle: u32, ghost good: bool, ghost storage: u32, ghost e: Meta, ghost rest: seq<byte>) returns (ok: bool)
    requires InOrder(m) && c.Valid() && (good ==> c.Rest() == P32(storage, PArr32(e.key, PArr32(e.value, rest))))
    modifies c`pos, m`metas, m.tracks`metas, m.tracks`metaWritten
    ensures c.Valid() && c.pos >= old(c.pos) && InOrder(m)
    ensures good && Replayable(MetaItem(handle, storage, e), old(LogOf(m))) ==>
              ok && c.Rest() == rest && LogOf(m) == Apply(MetaItem(handle, storage, e), old(LogOf(m)))
  {
    hide P32, PArr32, ValidKey, LogOf, Apply, Replayable, InOrder;
    ghost var sound := good && Replayable(MetaItem(handle, storage, e), LogOf(m));
    if sound { ApplyMeta(handle, storage, e, LogOf(m)); }
    var read := ReadKeyValue(c, sound, storage, e, rest);
    if read.None? { return false; }
    if handle == 0 {
      ok := AddReadFileMeta(m, read.value);
    } else {
      ok := AddReadMeta(m, handle, read.value);
    }
  }

  lemma ApplyMeta(handle: u32, storage: u32, e: Meta, log: Log)
    requires Replayable(MetaItem(handle, storage, e), log)
    ensures ValidKey(e.key) && |e.key| <= MAX_ALLOC_SIZE && |e.value| <= MAX_ALLOC_SIZE && (handle > 0 ==> Known(handle, log))
    ensures Apply(MetaItem(handle, storage, e), log) ==
            if handle == 0 then log.(metas := Add(log.metas, e.key, e.value, true))
            else WithTrack(log, handle, log.tracks[handle - 1].(metas := Add(log.tracks[handle - 1].metas, e.key, e.value, true)))
  {
    hide ValidKey, Add;
  }

  /** The cover; whatever the bytes, at least a kind and a length are consumed. */
  method ReadCover(m: Mux, c: Cursor, ghost good: bool, ghost kind: u32, ghost data: seq<byte>, ghost rest: seq<byte>) returns (ok: bool)
    requires InOrder(m) && m.CoverOk() && c.Valid() && (good ==> c.Rest() == P32(kind, PArr64(data, rest)))
    modifies c`pos, m`cover
    ensures c.Valid() && c.pos >= old(c.pos) && InOrder(m) && m.CoverOk()
    ensures ok ==> old(c.pos) + 12 <= c.pos && c.pos == old(c.pos) + 12 + FromLE64(c.bytes[old(c.pos) + 4..old(c.pos) + 12])
    ensures good && |data| <= MAX_ALLOC_SIZE ==> ok && c.Rest() == rest && LogOf(m) == old(LogOf(m)).(cover := Some((kind, data)))
  {
    hide P32, PArr64, FromLE64, RefBytes;
    ghost var sound := good && |data| <= MAX_ALLOC_SIZE;
    var k := c.Read32(sound, kind, PArr64(data, rest));
    if k.None? { return false; }
    var b := c.ReadArr64(MAX_ALLOC_SIZE, sound, data, rest);
    if b.None? { return false; }
    m.cover := Some((k.value, b.value));
    return true;
  }

  // ---------- one record, whatever it is ----------

  datatype BoxInfo = BoxInfo(handle: u32, tag: u32, number: u32)

  method ReadBoxInfo(c: Cursor, ghost good: bool, ghost i: BoxInfo, ghost rest: seq<byte>) returns (r: Option<BoxInfo>)
    requires c.Valid() && (good ==> c.Rest() == P32(i.handle, P32(i.tag, P32(i.number, rest))))
    modifies c`pos
    ensures c.Valid() && c.pos >= old(c.pos) && (r.Some? ==> c.pos == old(c.pos) + 12)
    ensures good ==> r == Some(i) && c.Rest() == rest
    ensures r.Some? ==> r.value.tag == FromLE32(c.bytes[old(c.pos) + 4..old(c.pos) + 8])
  {
    hide P32, FromLE32;
    var handle := c.Read32(good, i.handle, P32(i.tag, P32(i.number, rest)));
    if handle.None? { return None; }
    var tag := c.Read32(good, i.tag, P32(i.number, rest));
    if tag.None? { return None; }
    var number := c.Read32(good, i.number, rest);
    if number.None? { return None; }
    return Some(BoxInfo(handle.value, tag.value, number.value));
  }

  predicate KnownTag(tag: u32)
  {
    IsTableTag(tag) || tag == TRAK || tag == STSD || tag == META || tag == COVR
  }

  function InfoOf(r: Record): BoxInfo
  {
    BoxInfo(HandleOf(r), Tag(r), Number(r) % TWO32)
  }

  /** What follows the first three words, by the tag. */
  method ReadBody(m: Mux, c: Cursor, i: BoxInfo, ghost good: bool, ghost r: Record, ghost rest: seq<byte>) returns (status: ReadStatus)
    requires InOrder(m) && c.Valid() && i.tag != COVR && KnownTag(i.tag) && i.number <= MAX_ITEM_NUMBER
    requires good ==>
      && i == InfoOf(r) && i.number == Number(r) && c.Rest() == PBody(r, rest) && ChaptersPlain(LogOf(m)) && |m.tracks| < TWO32 - 1
      && Replayable(r, LogOf(m))
    modifies c`pos, m`tracks, m`byHandle, m`metas, m.tracks
    ensures c.Valid() && c.pos >= old(c.pos) && InOrder(m)
    ensures |old(m.tracks)| <= |m.tracks| && forall i :: |old(m.tracks)| <= i < |m.tracks| ==> fresh(m.tracks[i])
    ensures forall i :: 0 <= i < |old(m.tracks)| <= |m.tracks| ==> m.tracks[i] == old(m.tracks)[i]
    ensures good ==> status.Read? && LogOf(m) == Apply(r, old(LogOf(m))) && c.Rest() == rest
    ensures i.tag == STSD && old(OnlyVideo(m)) && Headless(c.bytes, old(c.pos)) ==> status.Fatal?
  {
    hide Headless;
    hide Replayable, Apply, PConfig, PInfo, PArr64, PArr32, P32, PList, Number, InOrder, LogOf, ChaptersPlain;
    var ok;
    if i.tag == TRAK {
      ok := ReadTrack(m, c, i.handle, good, if good then r.info else TrackInfo(Video, [], 0, 1, 0, 0), if good then r.refs else [], rest);
      return if ok then Read else Fatal;
    } else if i.tag == STSD {
      ok := ReadStsd(m, c, i.handle, good, if good then r.config else NoConfig, rest);
      return if ok then Read else Fatal;
    } else if i.tag == META {
      ok := ReadMeta(m, c, i.handle, good, if good then r.storage else 0, if good then r.meta else Meta([], []), rest);
      return if ok then Read else Minor;
    } else {
      ok := ReadTable(m, c, i.handle, i.tag, i.number, good, r, rest);
      return if ok then Read else Minor;
    }
  }

  lemma RecordKnown(r: Record, log: Log)
    requires Replayable(r, log)
    ensures KnownTag(Tag(r)) && Number(r) <= MAX_ITEM_NUMBER && (Tag(r) == COVR <==> r.Cover?)
  {
    hide ValidKey, GoodConfig, GoodInfo;
  }

  /** Chapter tracks stay without a configuration. */
  lemma ApplyKeepsPlain(r: Record, log: Log)
    requires Replayable(r, log) && ChaptersPlain(log)
    ensures ChaptersPlain(Apply(r, log)) && |Apply(r, log).tracks| <= |log.tracks| + 1
  {
    hide ValidKey, GoodInfo, Add, Alternate;
  }

  /** The bytes ahead are those of a cover record, as far as its first three words. */
  ghost predicate CoverAhead(c: Cursor, x: seq<byte>)
    requires c.Valid()
    reads c`pos
  {
    c.Rest() == P32(0, P32(COVR, P32(1, x)))
  }

  /** Nothing but the cover changed, and the length field of the cover says how far the reading went. */
  twostate predicate CoverOnly(m: Mux, new c: Cursor, new at: nat, new status: ReadStatus)
    reads m`tracks, m.tracks, m`metas, c`pos
  {
    && m.tracks == old(m.tracks) && m.metas == old(m.metas) && !status.Fatal?
    && (forall i :: 0 <= i < |m.tracks| ==> m.tracks[i].View() == old(m.tracks[i].View()))
    && (status.Read? ==>
          && at + 24 <= c.pos <= |c.bytes|
          && c.pos == at + 24 + FromLE64(c.bytes[at + 16..at + 24]))
  }

  /** A description of which only the first words are there. */
  predicate TornDescription(bytes: seq<byte>, at: nat)
  {
    at + 12 <= |bytes| && FromLE32(bytes[at + 4..at + 8]) == STSD && Headless(bytes, at + 12)
  }

  /**
     One record: a fatal failure ends the recovery, a minor one the replay. `part` is
     what there is after the first words of a cover that may be incomplete.
  */
  method ReadRecord(m: Mux, c: Cursor, ghost good: bool, ghost r: Record, ghost rest: seq<byte>, ghost part: Option<seq<byte>>)
    returns (status: ReadStatus)
    requires InOrder(m) && m.CoverOk() && c.Valid()
    requires good ==>
      && c.Rest() == PRecord(r, rest) && ChaptersPlain(LogOf(m)) && |m.tracks| < TWO32 - 1 && Replayable(r, LogOf(m))
    requires part.Some? ==> !good && CoverAhead(c, part.value)
    modifies c`pos, m`tracks, m`byHandle, m`metas, m`cover, m.tracks
    ensures c.Valid() && c.pos >= old(c.pos) && InOrder(m) && m.CoverOk() && (status.Read? ==> c.pos >= old(c.pos) + 12)
    ensures |old(m.tracks)| <= |m.tracks| && forall i :: |old(m.tracks)| <= i < |m.tracks| ==> fresh(m.tracks[i])
    ensures forall i :: 0 <= i < |old(m.tracks)| <= |m.tracks| ==> m.tracks[i] == old(m.tracks)[i]
    ensures good ==> status.Read? && LogOf(m) == Apply(r, old(LogOf(m))) && c.Rest() == rest
    ensures part.Some? ==> CoverOnly(m, c, old(c.pos), status)
    ensures part.None? && old(OnlyVideo(m)) && TornDescription(c.bytes, old(c.pos)) ==> status.Fatal?
  {
    hide FromLE32, Headless;
    hide Replayable, Apply, PBody, P32, Number, Tag, InOrder, LogOf, ChaptersPlain, PArr64, Track.View, FromLE64;
    if good { RecordKnown(r, LogOf(m)); }
    ghost var info := if good then InfoOf(r) else BoxInfo(0, COVR, 1);
    var i := ReadBoxInfo(c, good || part.Some?, info, if good then PBody(r, rest) else if part.Some? then part.value else []);
    if i.None? || !KnownTag(i.value.tag) || i.value.number > MAX_ITEM_NUMBER { return Fatal; }
    if i.value.tag == COVR {
      ghost var cover := good && r.Cover?;
      if cover { CoverBody(r.kind, r.data, rest, LogOf(m)); }
      var ok := ReadCover(m, c, cover, if cover then r.kind else 0, if cover then r.data else [], rest);
      return if ok then Read else Minor;
    }
    status := ReadBody(m, c, i.value, good, r, rest);
  }

  lemma CoverBody(kind: u32, data: seq<byte>, rest: seq<byte>, log: Log)
    ensures PBody(Cover(kind, data), rest) == P32(kind, PArr64(data, rest))
    ensures Replayable(Cover(kind, data), log) <==> |data| <= MAX_ALLOC_SIZE
    ensures Replayable(Cover(kind, data), log) ==> Apply(Cover(kind, data), log) == log.(cover := Some((kind, data)))
  {
  }

  // ---------- all the records ----------

  lemma {:induction false} PListLength<T(!new)>(put: (T, seq<byte>) -> seq<byte>, es: seq<T>, t: seq<byte>)
    requires forall e: T, u: seq<byte> {:trigger put(e, u)} :: |put(e, u)| > |u|
    ensures |PList(put, es, t)| >= |t| && (|PList(put, es, t)| == |t| ==> es == [])
  {
    if es != [] { PListLength(put, es[1..], t); }
  }

  lemma EntryLengths()
    ensures forall e: TtsEntry, u: seq<byte> {:trigger PTts(e, u)} :: |PTts(e, u)| > |u|
    ensures forall e: u32, u: seq<byte> {:trigger P32(e, u)} :: |P32(e, u)| > |u|
    ensures forall e: StcEntry, u: seq<byte> {:trigger PStc(e, u)} :: |PStc(e, u)| > |u|
    ensures forall e: Sample, u: seq<byte> {:trigger PSample(e, u)} :: |PSample(e, u)| > |u|
    ensures forall e: u64, u: seq<byte> {:trigger P64(e, u)} :: |P64(e, u)| > |u|
  {
    hide LE32, LE64;
  }

  lemma ConfigLength(c: Config, t: seq<byte>)
    ensures |PConfig(c, t)| >= |t| && (|PConfig(c, t)| == |t| ==> c.NoConfig?)
  {
    hide LE32, LE64;
  }

  /** Only records without items, or the description of a chapter track, are no longer than their first three words. */
  lemma RecordLength(r: Record, t: seq<byte>)
    ensures |PRecord(r, t)| >= 12 + |t|
    ensures |PRecord(r, t)| == 12 + |t| ==> (r.Stsd? && r.config.NoConfig?) || (IsTableTag(Tag(r)) && Number(r) == 0)
  {
    hide LE32, LE64, PList, PConfig, Number, HandleOf;
    EntryLengths();
    match r {
      case Trak(_, info, refs) =>
      case Stsd(_, config) => ConfigLength(config, t);
      case Stts(_, es) => PListLength(PTts, es, t);
      case Stss(_, es) => PListLength(P32, es, t);
      case Stsc(_, es) => PListLength(PStc, es, t);
      case Stsz(_, es) => PListLength(PSample, es, t);
      case Stco(_, _, es) => PListLength(P64, es, t);
      case MetaItem(_, _, _) =>
      case Cover(_, _) =>
    }
    NumberZero(r);
  }

  lemma NumberZero(r: Record)
    ensures Number(r) == match r
                         case Stts(_, es) => |es|
                         case Stss(_, es) => |es|
                         case Stsc(_, es) => |es|
                         case Stsz(_, es) => |es|
                         case Stco(_, _, es) => |es|
                         case _ => 1
  {
  }

  /** Such a record changes nothing. */
  lemma ShortRecordInert(r: Record, log: Log)
    requires Replayable(r, log) && ChaptersPlain(log)
    requires (r.Stsd? && r.config.NoConfig?) || (IsTableTag(Tag(r)) && Number(r) == 0)
    ensures Apply(r, log) == log
  {
    hide ValidKey, GoodInfo;
    if r.Stsd? {
      var t := log.tracks[r.handle - 1];
      assert t.(config := NoConfig) == t;
      assert log.tracks[r.handle - 1 := t] == log.tracks;
    } else {
      ApplyTable(r, log);
      var t := log.tracks[r.handle - 1];
      assert Entered(r, t) == t;
      assert log.tracks[r.handle - 1 := t] == log.tracks;
    }
  }

  lemma {:induction false} RecordsLength(rs: seq<Record>, t: seq<byte>)
    ensures |PRecords(rs, t)| >= 12 * |rs| + |t|
  {
    hide PRecord;
    if rs != [] {
      RecordsLength(rs[1..], t);
      RecordLength(rs[0], PRecords(rs[1..], t));
    }
  }

  /** The loop leaves out at most twelve bytes: a record that changes nothing, or the beginning of a cover. */
  lemma LeftOut(rs: seq<Record>, torn: seq<byte>, log: Log)
    requires |PRecords(rs, torn)| <= 12 && ChaptersPlain(log) && ApplyAll(rs, log).Some?
    ensures ApplyAll(rs, log) == Some(log)
  {
    hide PRecord, Apply, Replayable, ChaptersPlain;
    RecordsLength(rs, torn);
    if rs != [] {
      assert rs == [rs[0]] && rs[1..] == [];
      RecordLength(rs[0], torn);
      ApplyOne(rs[0], log);
      assert PRecords(rs, torn) == PRecord(rs[0], torn);
      ShortRecordInert(rs[0], log);
    }
  }

  // ---------- a cover that is not all there ----------

  function CoverHead(): (h: seq<byte>)
    ensures |h| == 12
  {
    LE32(0) + (LE32(COVR) + LE32(1))
  }

  lemma HeadFront(t: seq<byte>)
    ensures P32(0, P32(COVR, P32(1, t))) == CoverHead() + t
  {
    hide LE32;
  }

  /** The first three words of a cover, and where its length is. */
  lemma CoverShape(kind: u32, data: seq<byte>)
    ensures var p := PRecord(Cover(kind, data), []);
            && |p| == 24 + |data| && p[..12] == CoverHead() && FromLE64(p[16..24]) == |data| % TWO64
  {
    hide FromLE64, P32, P64, CoverHead;
    var sized := P64(|data| % TWO64, data + []);
    var body := P32(kind, sized);
    var p := PRecord(Cover(kind, data), []);
    HeadFront(body);
    assert p == CoverHead() + body;
    P32Front(kind, sized);
    P64Front(|data| % TWO64, data + []);
    assert p[16..24] == body[4..][..8];
  }

  lemma CoverFront(b: seq<byte>, torn: seq<byte>, tail: seq<byte>) returns (x: seq<byte>, size: nat)
    requires b == torn + tail && PartOfCover(torn) && |torn| > 12
    ensures b == P32(0, P32(COVR, P32(1, x)))
    ensures |torn| >= 24 ==> FromLE64(b[16..24]) == size && |torn| <= 24 + size
  {
    hide PRecord, P32, FromLE64, CoverHead;
    var kind: u32, data: seq<byte> :| |data| < TWO64 && torn <= PRecord(Cover(kind, data), []);
    var p := PRecord(Cover(kind, data), []);
    CoverShape(kind, data);
    x, size := torn[12..] + tail, |data|;
    HeadFront(x);
    assert torn[..12] == p[..12];
    assert b == torn[..12] + (torn[12..] + tail);
    if |torn| >= 24 { assert b[16..24] == torn[16..24] == p[16..24]; }
  }

  // ---------- the replay ----------

  /** The bytes ahead are these records, then part of a cover, up to `end`; beyond it, whatever the file holds. */
  ghost predicate Ahead(c: Cursor, end: nat, rs: seq<Record>, torn: seq<byte>, tail: seq<byte>)
    reads c`pos
  {
    && c.Valid() && c.Rest() == PRecords(rs, torn + tail) && PartOfCover(torn)
    && c.pos + |PRecords(rs, torn)| == end
  }

  lemma NextAhead(rs: seq<Record>, torn: seq<byte>, tail: seq<byte>)
    requires rs != []
    ensures PRecords(rs, torn + tail) == PRecord(rs[0], PRecords(rs[1..], torn + tail))
    ensures |PRecords(rs, torn)| + |tail| == |PRecords(rs, torn + tail)|
    ensures |PRecords(rs[1..], torn)| + |tail| == |PRecords(rs[1..], torn + tail)|
  {
    hide PRecord;
    RecordsTail(rs, torn, tail);
    RecordsTail(rs[1..], torn, tail);
  }

  lemma ApplyGrows(r: Record, log: Log)
    requires Replayable(r, log)
    ensures |log.tracks| <= |Apply(r, log).tracks|
  {
    hide Add, ValidKey, GoodConfig, GoodInfo;
  }

  lemma {:induction false} ApplyAllGrows(rs: seq<Record>, log: Log)
    requires ApplyAll(rs, log).Some?
    ensures |log.tracks| <= |ApplyAll(rs, log).value.tracks|
    decreases |rs|
  {
    if rs != [] {
      ApplyGrows(rs[0], log);
      ApplyAllGrows(rs[1..], Apply(rs[0], log));
    }
  }

  /** What the replay is meant to reach; the cover may be garbage when only part of one was committed. */
  ghost predicate Reached(m: Mux, final: Log, torn: seq<byte>)
    reads m`tracks, m.tracks, m`metas, m`cover
  {
    LogOf(m).tracks == final.tracks && m.metas == final.metas && (torn == [] ==> m.cover == final.cover)
  }

  /** The replay still has these records ahead, or it has just been through part of a cover. */
  ghost predicate OnCourse(m: Mux, c: Cursor, end: nat, left: seq<Record>, torn: seq<byte>, tail: seq<byte>, final: Log, through: bool)
    reads m`tracks, m.tracks, m`metas, m`cover, c`pos
  {
    if through then Reached(m, final, torn) && torn != [] && c.pos >= end
    else Ahead(c, end, left, torn, tail) && ApplyAll(left, LogOf(m)) == Some(final) && ChaptersPlain(LogOf(m))
  }

  /** One turn of the replay: a record, or part of a cover, which ends it either way. */
  method ReplayOneRecord(m: Mux, c: Cursor, end: nat, ghost good: bool, ghost left: seq<Record>, ghost torn: seq<byte>, ghost tail: seq<byte>, ghost final: Log)
    returns (status: ReadStatus)
    requires InOrder(m) && m.CoverOk() && c.Valid() && c.pos + 12 < end
    requires good ==> OnCourse(m, c, end, left, torn, tail, final, false) && |final.tracks| < TWO32 - 1
    modifies c`pos, m`tracks, m`byHandle, m`metas, m`cover, m.tracks
    ensures c.Valid() && c.pos >= old(c.pos) && InOrder(m) && m.CoverOk() && (status.Read? ==> c.pos >= old(c.pos) + 12)
    ensures |old(m.tracks)| <= |m.tracks| && forall i :: |old(m.tracks)| <= i < |m.tracks| ==> fresh(m.tracks[i])
    ensures forall i :: 0 <= i < |old(m.tracks)| <= |m.tracks| ==> m.tracks[i] == old(m.tracks)[i]
    ensures good && left != [] ==> status.Read? && OnCourse(m, c, end, left[1..], torn, tail, final, false)
    ensures good && left == [] ==> !status.Fatal? && Reached(m, final, torn) && (status.Read? ==> OnCourse(m, c, end, left, torn, tail, final, true))
  {
    hide PRecord, P32, Replayable, Apply, InOrder, ChaptersPlain, FromLE64, PartOfCover, LogOf;
    ghost var more := good && left != [];
    ghost var part: Option<seq<byte>>, size: nat := None, 0;
    LogLength(m);
    if more {
      NextAhead(left, torn, tail);
      ApplyAllGrows(left, LogOf(m));
      ApplyAllGrows(left[1..], Apply(left[0], LogOf(m)));
      ApplyKeepsPlain(left[0], LogOf(m));
    } else if good {
      ghost var x;
      x, size := CoverFront(c.Rest(), torn, tail);
      part := Some(x);
    }
    status := ReadRecord(m, c, more, if more then left[0] else Cover(0, []), if more then PRecords(left[1..], torn + tail) else [], part);
    if part.Some? {
      CoverPassed(m, c, end, torn, tail, final, size, status);
    }
  }

  /** After part of a cover, the tracks and the metadata are as they were, and the committed length is used up. */
  twostate lemma CoverPassed(m: Mux, new c: Cursor, new end: nat, new torn: seq<byte>, new tail: seq<byte>, new final: Log, new size: nat, new status: ReadStatus)
    requires old(allocated(c)) && old(LogOf(m)) == final && CoverOnly(m, c, old(c.pos), status)
    requires old(c.Valid()) && old(c.Rest()) == torn + tail && old(c.pos) + |torn| == end && |torn| > 12
    requires |torn| >= 24 ==> FromLE64((torn + tail)[16..24]) == size && |torn| <= 24 + size
    ensures !status.Fatal? && Reached(m, final, torn) && (status.Read? ==> c.pos >= end)
  {
    hide Track.View, FromLE64;
    assert LogOf(m).tracks == old(LogOf(m)).tracks;
    var at := old(c.pos);
    if |torn| >= 24 { assert c.bytes[at..][16..24] == c.bytes[at + 16..at + 24]; }
  }

  lemma ReplayEnds(m: Mux, c: Cursor, end: nat, left: seq<Record>, torn: seq<byte>, tail: seq<byte>, final: Log, through: bool)
    requires OnCourse(m, c, end, left, torn, tail, final, through) && c.pos + 12 >= end
    ensures Reached(m, final, torn)
  {
    hide ChaptersPlain, PartOfCover;
    if !through { LeftOut(left, torn, LogOf(m)); }
  }

  /** The records up to the committed length; a minor failure ends the replay without being reported. */
  method ReplayJournal(m: Mux, c: Cursor, end: nat, ghost good: bool, ghost rs: seq<Record>, ghost torn: seq<byte>, ghost tail: seq<byte>, ghost final: Log)
    returns (ok: bool)
    requires InOrder(m) && m.CoverOk() && c.Valid()
    requires good ==> OnCourse(m, c, end, rs, torn, tail, final, false) && |final.tracks| < TWO32 - 1
    modifies c`pos, m`tracks, m`byHandle, m`metas, m`cover, m.tracks
    ensures c.Valid() && InOrder(m) && m.CoverOk()
    ensures |old(m.tracks)| <= |m.tracks| && forall i :: |old(m.tracks)| <= i < |m.tracks| ==> fresh(m.tracks[i])
    ensures good ==> ok && Reached(m, final, torn)
  {
    hide InOrder, OnCourse, Reached;
    ghost var left, through := rs, false;
    while c.pos + 12 < end
      invariant c.Valid() && InOrder(m) && m.CoverOk()
      invariant |old(m.tracks)| <= |m.tracks| && forall i :: |old(m.tracks)| <= i < |m.tracks| ==> fresh(m.tracks[i])
      invariant forall i :: 0 <= i < |old(m.tracks)| <= |m.tracks| ==> m.tracks[i] == old(m.tracks)[i]
      invariant good ==> OnCourse(m, c, end, left, torn, tail, final, through)
      decreases end - c.pos
    {
      if good { NotThrough(m, c, end, left, torn, tail, final, through); }
      var status := ReplayOneRecord(m, c, end, good, left, torn, tail, final);
      if status.Minor? { return true; }
      if status.Fatal? { return false; }
      if left == [] { through := true; } else { left := left[1..]; }
    }
    if good { ReplayEnds(m, c, end, left, torn, tail, final, through); }
    return true;
  }

  lemma NotThrough(m: Mux, c: Cursor, end: nat, left: seq<Record>, torn: seq<byte>, tail: seq<byte>, final: Log, through: bool)
    requires OnCourse(m, c, end, left, torn, tail, final, through) && c.pos + 12 < end
    ensures !through
  {
  }

  datatype JournalHeader = JournalHeader(tablesSize: u64, megabytes: u64, path: seq<byte>)

  /** The header; only the current version is read, and a file without the path of its recording is refused. */
  method ReadHeader(c: Cursor, ghost good: bool, ghost h: JournalHeader, ghost rest: seq<byte>) returns (r: Option<JournalHeader>)
    requires c.Valid()
    requires good ==> c.Rest() == PHeader(h.tablesSize, h.megabytes, h.path, rest) && 0 < |h.path| <= MAX_ALLOC_SIZE && h.path[0] != 0
    modifies c`pos
    ensures c.Valid() && (good ==> r == Some(h) && c.Rest() == rest)
  {
    hide P32, P64, PArr32;
    ghost var uuid := P32(0, rest);
    var magic := c.Read32(good, MAGIC, P32(VERSION, P64(h.tablesSize, P64(h.megabytes, PArr32(h.path, uuid)))));
    if magic.None? || magic.value != MAGIC { return None; }
    var version := c.Read32(good, VERSION, P64(h.tablesSize, P64(h.megabytes, PArr32(h.path, uuid))));
    if version.None? { return None; }
    var size := c.Read64(good, h.tablesSize, P64(h.megabytes, PArr32(h.path, uuid)));
    if size.None? { return None; }
    var megabytes := c.Read64(good, h.megabytes, PArr32(h.path, uuid));
    if megabytes.None? || version.value != VERSION { return None; }
    var path := c.ReadArr32(good, h.path, uuid);
    if path.None? || |path.value| == 0 || path.value[0] == 0 { return None; }
    if good { NoUuid(rest); }
    var id := c.ReadArr32(good, [], rest);
    if id.None? { return None; }
    return Some(JournalHeader(size.value, megabytes.value, path.value));
  }

  lemma NoUuid(rest: seq<byte>)
    ensures P32(0, rest) == PArr32([], rest)
  {
    assert [] + rest == rest;
  }
}
