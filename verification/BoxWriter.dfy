/**
 Serialisation of a box tree into the tables buffer, with the bounded writes and
 the size back-patching of the muxer.
 */
module BoxWriter {
  import opened Bytes
  import opened Wrappers
  import opened BoxTree
  import opened HeaderBoxes
  import opened ConfigBytes
  import opened TablesMemory
  import DecoderConfig

  /** The writers of the five table boxes; the size is computed in advance and never needs patching. */
  method WriteTable(w: TablesBuffer, t: Table, max: nat) returns (r: WriteResult)
    requires Count(t) <= MAX_ENTRY_COUNT && w.Room(0, max)
    modifies w`offset, w.buf
    ensures r == if |TableBytes(t)| <= max then Wrote(|TableBytes(t)|) else NoSpace
    ensures w.offset <= w.buf.Length && old(w.Content()) <= w.Content()
    ensures r.Wrote? ==> w.Content() == old(w.Content()) + TableBytes(t)
  {
    hide EntryWords, HeaderWords, WordBytes, BE32;
    if Count(t) == 0 { return Wrote(0); }
    ghost var before := w.Content();
    var header, entries := HeaderWords(t), EntryWords(t);
    TableSplit(before, t);
    var boxSize := 8 + 4 * |header| + 4 * |entries|;
    r := w.WriteHeader(boxSize, Kind(t), max);
    if r.NoSpace? { return; }
    r := w.WriteWords(header, r.n, max);
    if r.NoSpace? { return; }
    r := w.WriteWords(entries, r.n, max);
    if r.NoSpace? { return; }
    w.CheckSize(boxSize, r.n);
  }

  lemma TableSplit(before: seq<byte>, t: Table)
    requires 0 < Count(t) <= MAX_ENTRY_COUNT
    ensures var header, entries := HeaderWords(t), EntryWords(t);
            && |TableBytes(t)| == 8 + 4 * |header| + 4 * |entries| < TWO32
            && before + TableBytes(t) == before + (BE32(|TableBytes(t)|) + BE32(Kind(t))) + WordBytes(header) + WordBytes(entries)
  {
    hide BE32, EntryWords, WordBytes;
    var header, entries := HeaderWords(t), EntryWords(t);
    WordBytesAppend(header, entries);
    Regroup(before, BE32(8 + 4 * |header + entries|) + BE32(Kind(t)), WordBytes(header), WordBytes(entries));
  }

  lemma Regroup(a: seq<byte>, b: seq<byte>, c: seq<byte>, d: seq<byte>)
    ensures a + (b + (c + d)) == a + b + c + d
  {
  }

  /** The header boxes: a sample description whose configuration cannot be written is given up on the way. */
  method WriteHeaderBox(w: TablesBuffer, h: HeaderBox, max: nat) returns (r: WriteResult)
    requires w.Room(0, max) && (h.Stsd? && h.config.Aac? ==> |h.config.asc| < TWO32)
    modifies w`offset, w.buf
    ensures r == TreeResult(Cut(h), 0, |HeaderBytes(h)|, max)
    ensures w.offset <= w.buf.Length && old(w.Content()) <= w.Content()
    ensures r.Wrote? ==> w.Content() == old(w.Content()) + HeaderBytes(h)
  {
    hide BE32, StsdContent, Describable, StsdCut, HeaderBytes;
    if h.Stsd? {
      StsdBytes(h);
      r := DecoderConfig.WriteStsd(w, h.kind, h.config, h.id, h.info, max);
    } else {
      r := WriteFixed(w, h, max);
    }
  }

  /** All others are some words, and what follows them. */
  method WriteFixed(w: TablesBuffer, h: HeaderBox, max: nat) returns (r: WriteResult)
    requires w.Room(0, max) && !h.Stsd?
    modifies w`offset, w.buf
    ensures r == if |HeaderBytes(h)| <= max then Wrote(|HeaderBytes(h)|) else NoSpace
    ensures w.offset <= w.buf.Length && old(w.Content()) <= w.Content()
    ensures r.Wrote? ==> w.Content() == old(w.Content()) + HeaderBytes(h)
  {
    hide BE32, WordBytes, FixedWords, Variable, HeaderBytes, HeaderKind;
    var words, rest := FixedWords(h), Variable(h);
    var size := 8 + 4 * |words| + |rest|;
    FixedBytes(w.Content(), h);
    r := w.WriteHeader(size % TWO32, HeaderKind(h), max);
    if !r.Wrote? { return; }
    r := w.WriteWords(words, r.n, max);
    if !r.Wrote? { return; }
    r := w.WriteBytes(rest, r.n, max);
    if !r.Wrote? { return; }
    w.CheckSize(size, r.n);
  }

  lemma FixedBytes(before: seq<byte>, h: HeaderBox)
    requires !h.Stsd?
    ensures var words, rest := FixedWords(h), Variable(h);
            var size := 8 + 4 * |words| + |rest|;
            && |HeaderBytes(h)| == size
            && before + (BE32(size % TWO32) + BE32(HeaderKind(h))) + WordBytes(words) + rest == before + HeaderBytes(h)
  {
    hide BE32, WordBytes, FixedWords, Variable, HeaderKind;
    var words, rest := FixedWords(h), Variable(h);
    Grouped(before, BE32((8 + 4 * |words| + |rest|) % TWO32), BE32(HeaderKind(h)), WordBytes(words), rest);
  }

  lemma Grouped(a: seq<byte>, b: seq<byte>, c: seq<byte>, d: seq<byte>, e: seq<byte>)
    ensures a + (b + c) + d + e == a + (b + (c + (d + e)))
  {
  }

  lemma StsdBytes(h: HeaderBox)
    requires h.Stsd?
    ensures Writable(h) ==> HeaderBytes(h) == Entry(STSD, StsdContent(h.kind, h.config, h.id, h.info))
  {
    hide StsdContent, BE32;
    if Writable(h) { assert WordBytes([]) == [] && [] + Variable(h) == Variable(h); }
  }

  /** The children of a container, one after the other, up to the first that gives up or does not fit. */
  method WriteChildren(w: TablesBuffer, children: seq<Box>, start: nat, max: nat) returns (r: WriteResult)
    requires AllBounded(children) && w.Room(start, max)
    modifies w`offset, w.buf
    ensures r == TreeResult(RefusalAll(children), start, |AllBytes(children)|, max)
    ensures w.offset <= w.buf.Length && old(w.Content()) <= w.Content()
    ensures r.Wrote? ==> w.Content() == old(w.Content()) + AllBytes(children)
    decreases children, 1
  {
    hide BoxBytes, AllBytes, BE32, Bounded, Refusal, RefusalAll;
    r := Wrote(start);
    assert children[..0] == [] && children[..|children|] == children;
    NoneRefused();
    for k := 0 to |children|
      invariant AllBounded(children[..k]) && RefusalAll(children[..k]).None?
      invariant r == Wrote(start + |AllBytes(children[..k])|) && w.Room(r.n, max)
      invariant w.offset <= w.buf.Length && w.Content() == old(w.Content()) + AllBytes(children[..k])
    {
      AllBytesNext(children, k);
      RefusalNext(children, k);
      var written := r.n;
      r := WriteBox(w, children[k], max - written);
      if !r.Wrote? { return; }
      r := Wrote(written + r.n);
    }
  }

  lemma NoneRefused()
    ensures RefusalAll([]).None? && AllBytes([]) == []
  {
  }

  /** A container: its size is unknown until the children are written, and is patched in afterwards. */
  method WriteContainer(w: TablesBuffer, kind: u32, children: seq<Box>, max: nat) returns (r: WriteResult)
    requires AllBounded(children) && w.Room(0, max)
    modifies w`offset, w.buf
    ensures r == TreeResult(After(8, RefusalAll(children)), 0, 8 + |AllBytes(children)|, max)
    ensures w.offset <= w.buf.Length && old(w.Content()) <= w.Content()
    ensures r.Wrote? ==> w.Content() == old(w.Content()) + BoxBytes(Container(kind, children))
    decreases children, 2
  {
    hide BoxBytes, AllBytes, BE32, RefusalAll;
    ghost var before := w.Content();
    r := w.WriteHeader(0, kind, max);
    if !r.Wrote? { return; }
    r := WriteChildren(w, children, r.n, max);
    if !r.Wrote? { return; }
    w.CheckSize(0, r.n);
    ContainerPatched(before, kind, children);
  }

  /** Putting the size of a container in front of what follows it. */
  lemma ContainerPatched(before: seq<byte>, kind: u32, cs: seq<Box>)
    requires AllBounded(cs)
    ensures var all := before + (BE32(0) + BE32(kind)) + AllBytes(cs);
            var n := 8 + |AllBytes(cs)|;
            && |all| == |before| + n
            && all[..|before|] + BE32(n % TWO32) + all[|before| + 4..] == before + BoxBytes(Container(kind, cs))
  {
    hide BE32, AllBytes;
    var all := before + (BE32(0) + BE32(kind)) + AllBytes(cs);
    assert all[..|before|] == before;
    assert all[|before| + 4..] == BE32(kind) + AllBytes(cs);
  }

  /** The same with version and flags before the children. */
  method WriteFull(w: TablesBuffer, kind: u32, children: seq<Box>, max: nat) returns (r: WriteResult)
    requires AllBounded(children) && w.Room(0, max)
    modifies w`offset, w.buf
    ensures r == TreeResult(After(12, RefusalAll(children)), 0, 12 + |AllBytes(children)|, max)
    ensures w.offset <= w.buf.Length && old(w.Content()) <= w.Content()
    ensures r.Wrote? ==> w.Content() == old(w.Content()) + BoxBytes(Full(kind, children))
    decreases children, 2
  {
    hide BoxBytes, AllBytes, BE32, RefusalAll;
    ghost var before := w.Content();
    r := w.WriteHeader(0, kind, max);
    if !r.Wrote? { return; }
    r := w.Write32(0, r.n, max);
    if !r.Wrote? { return; }
    r := WriteChildren(w, children, r.n, max);
    if !r.Wrote? { return; }
    w.CheckSize(0, r.n);
    FullPatched(before, kind, children);
  }

  lemma FullPatched(before: seq<byte>, kind: u32, cs: seq<Box>)
    requires AllBounded(cs)
    ensures var all := before + (BE32(0) + BE32(kind)) + BE32(0) + AllBytes(cs);
            var n := 12 + |AllBytes(cs)|;
            && |all| == |before| + n
            && all[..|before|] + BE32(n % TWO32) + all[|before| + 4..] == before + BoxBytes(Full(kind, cs))
  {
    hide BE32, AllBytes;
    var all := before + (BE32(0) + BE32(kind)) + BE32(0) + AllBytes(cs);
    assert all[..|before|] == before;
    assert all[|before| + 4..] == BE32(kind) + (BE32(0) + AllBytes(cs));
  }

  /** Writing succeeds exactly when no writer gives up and the box fits, and then appends its bytes and returns their number. */
  method WriteBox(w: TablesBuffer, b: Box, max: nat) returns (r: WriteResult)
    requires Bounded(b) && w.Room(0, max)
    modifies w`offset, w.buf
    ensures r == TreeResult(Refusal(b), 0, |BoxBytes(b)|, max)
    ensures w.offset <= w.buf.Length && old(w.Content()) <= w.Content()
    ensures r.Wrote? ==> w.Content() == old(w.Content()) + BoxBytes(b)
    decreases b, 0
  {
    match b
    case Container(kind, cs) => r := WriteContainer(w, kind, cs, max);
    case Full(kind, cs) => r := WriteFull(w, kind, cs, max);
    case Table(t) => r := WriteTable(w, t, max);
    case Header(h) => r := WriteHeaderBox(w, h, max);
    case _ => r := w.WriteBytes(BoxBytes(b), 0, max);
  }
}
