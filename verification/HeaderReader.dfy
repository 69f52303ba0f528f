/**
 The demuxer's readers of the boxes that say what a movie and its tracks are. On any
 bytes, a successful read consumes the box; on boxes the muxer wrote, it finds what
 was written.
 */
module HeaderReader {
  import opened Bytes
  import opened Wrappers
  import opened ConfigBytes
  import opened MediaInput
  import opened HeaderBoxes

  datatype LeafResult<T> = Leaf(value: T) | LeafBad(error: ReadError)

  /** The words from `i`, of those that come next. */
  method TakeFrom(f: MediaFile, n: nat, ghost good: bool, ghost w: seq<u32>, ghost i: nat, ghost rest: seq<byte>) returns (r: Option<seq<u32>>)
    requires good ==> i + n <= |w| && f.Next(WordBytes(w[i..]) + rest)
    modifies f`pos
    ensures f.pos >= old(f.pos) && (r.Some? ==> |r.value| == n && f.pos == old(f.pos) + 4 * n)
    ensures (r.Some? <==> old(f.pos) + 4 * n <= |f.bytes| || n == 0) && (r.Some? ==> f.WordsAre(r.value, old(f.pos)))
    ensures good ==> r == Some(w[i..i + n]) && f.Next(WordBytes(w[i + n..]) + rest)
  {
    hide WordBytes, MediaFile.WordsAre;
    ghost var a, b := [], [];
    if good {
      a, b := w[i..i + n], w[i + n..];
      assert w[i..] == a + b;
      WordBytesAppend(a, b);
      assert WordBytes(a) + WordBytes(b) + rest == WordBytes(a) + (WordBytes(b) + rest);
    }
    r := TakeWords(f, n, good, a, WordBytes(b) + rest);
  }

  /** What is left of a box is stepped over. */
  method SkipTo(f: MediaFile, end: nat)
    requires f.pos <= end
    modifies f`pos
    ensures f.pos == end
  {
    f.pos := end;
  }

  /** A time or a duration: 64 bits in version 1, 32 before. */
  function Long(w: seq<u32>): u64
    requires |w| == 1 || |w| == 2
  {
    if |w| == 1 then w[0] else w[0] * TWO32 + w[1]
  }

  /** One of them. */
  method TakeOne(f: MediaFile, ghost good: bool, ghost w: seq<u32>, ghost i: nat, ghost rest: seq<byte>) returns (r: Option<u32>)
    requires good ==> i < |w| && f.Next(WordBytes(w[i..]) + rest)
    modifies f`pos
    ensures f.pos >= old(f.pos) && (r.Some? ==> f.pos == old(f.pos) + 4)
    ensures (r.Some? <==> old(f.pos) + 4 <= |f.bytes|) && (r.Some? ==> r.value == f.Word(old(f.pos)))
    ensures good ==> r == Some(w[i]) && f.Next(WordBytes(w[i + 1..]) + rest)
  {
    hide WordBytes, MediaFile.Word;
    var x := TakeFrom(f, 1, good, w, i, rest);
    r := if x.None? then None else Some(x.value[0]);
  }

  /** A time or a duration. */
  method TakeLong(f: MediaFile, wide: bool, ghost good: bool, ghost w: seq<u32>, ghost i: nat, ghost rest: seq<byte>) returns (r: Option<u64>)
    requires good ==> wide && i + 2 <= |w| && f.Next(WordBytes(w[i..]) + rest)
    modifies f`pos
    ensures f.pos >= old(f.pos) && (r.Some? ==> f.pos == old(f.pos) + if wide then 8 else 4)
    ensures r.Some? <==> old(f.pos) + (if wide then 8 else 4) <= |f.bytes|
    ensures r.Some? ==> r.value == if wide then f.Word(old(f.pos)) * TWO32 + f.Word(old(f.pos) + 4) else f.Word(old(f.pos))
    ensures good ==> r == Some(w[i] * TWO32 + w[i + 1]) && f.Next(WordBytes(w[i + 2..]) + rest)
  {
    hide WordBytes, MediaFile.Word;
    var x := TakeFrom(f, if wide then 2 else 1, good, w, i, rest);
    r := if x.None? then None else Some(Long(x.value));
  }

  /** The whole content is words, from the first. */
  lemma AllWords(w: seq<u32>)
    ensures w[0..] == w && WordBytes(w) + [] == WordBytes(w)
  {
  }

  /** As many bytes as the version of a header box needs: 12 more in version 1, which has times of 64 bits. */
  predicate LongEnough(f: MediaFile, at: nat, max: nat, least: nat)
    requires least > 0
  {
    && least <= max && at + least <= |f.bytes|
    && (f.bytes[at] == 1 ==> least + 12 <= max && at + least + 12 <= |f.bytes|)
  }

  /** The first byte of a full box is its version. */
  lemma VersionByte(f: MediaFile, at: nat)
    requires at + 4 <= |f.bytes|
    ensures f.Word(at) / 0x0100_0000 == f.bytes[at]
  {
    assert f.bytes[at..at + 4][..2][0] == f.bytes[at];
  }

  /** Version, flags and two times, of a box that is as long as its version says. */
  method ReadVersion(f: MediaFile, max: nat, least: nat, ghost good: bool, ghost w: seq<u32>, ghost rest: seq<byte>) returns (r: LeafResult<bool>)
    requires least >= 24
    requires good ==> |w| >= 5 && w[0] / 0x0100_0000 == 1 && least + 12 <= max && f.Next(WordBytes(w[0..]) + rest)
    modifies f`pos
    ensures f.pos >= old(f.pos)
    ensures r.Leaf? ==> least <= max && old(f.pos) + 12 <= |f.bytes| && (r.value <==> f.bytes[old(f.pos)] == 1)
    ensures r.Leaf? ==> (r.value ==> least + 12 <= max) && f.pos == old(f.pos) + (if r.value then 20 else 12) <= |f.bytes|
    ensures LongEnough(f, old(f.pos), max, least) ==> r.Leaf?
    ensures good ==> r == Leaf(true) && f.Next(WordBytes(w[5..]) + rest)
  {
    hide WordBytes, MediaFile.Word, MediaFile.WordsAre;
    var start := f.pos;
    if max < least { return LeafBad(Einval); }
    var version := TakeOne(f, good, w, 0, rest);
    if version.None? { return LeafBad(Eio); }
    VersionByte(f, start);
    var wide := version.value / 0x0100_0000 == 1;
    if wide && max < least + 12 { return LeafBad(Einval); }
    var times := TakeFrom(f, if wide then 4 else 2, good, w, 1, rest);
    if times.None? { return LeafBad(Eio); }
    return Leaf(wide);
  }

  /** Behind version, flags and two times: in version 1 at 20, in any other at 12. */
  function AfterTimes(f: MediaFile, at: nat): u32
    requires LongEnough(f, at, |f.bytes|, 24)
  {
    f.Word(if f.bytes[at] == 1 then at + 20 else at + 12)
  }

  /** A duration behind times and timescale: 64 bits at 24 in version 1, 32 at 16 in any other. */
  predicate DurationIs(f: MediaFile, at: nat, duration: u64)
    requires LongEnough(f, at, |f.bytes|, 24)
  {
    duration == if f.bytes[at] == 1 then f.Word(at + 24) * TWO32 + f.Word(at + 28) else f.Word(at + 16)
  }

  /** Movie header: the timescale and the duration. A timescale of 0 is refused. */
  method ReadMvhd(f: MediaFile, max: nat, ghost good: bool, ghost h: HeaderBox) returns (r: LeafResult<(u32, u64)>)
    requires good ==> h.Mvhd? && f.Next(HeaderContent(h)) && max == |HeaderContent(h)|
    modifies f`pos
    ensures f.pos >= old(f.pos) && (r.Leaf? ==> f.pos == old(f.pos) + max && r.value.0 > 0)
    ensures r.Leaf? <==> LongEnough(f, old(f.pos), max, 100) && AfterTimes(f, old(f.pos)) > 0
    ensures r.Leaf? ==> r.value.0 == AfterTimes(f, old(f.pos)) && DurationIs(f, old(f.pos), r.value.1)
    ensures good ==> r == if h.timescale == 0 then LeafBad(Eproto) else Leaf((h.timescale, h.duration))
  {
    hide MediaFile.Word, MediaFile.WordsAre, WordBytes, MvhdWords;
    ghost var w: seq<u32> := [];
    if good {
      w := FixedWords(h);
      AllWords(w);
      MvhdFields(h);
    }
    var start := f.pos;
    var wide := ReadVersion(f, max, 100, good, w, []);
    if wide.LeafBad? { return LeafBad(wide.error); }
    var timescale := TakeOne(f, good, w, 5, []);
    if timescale.None? { return LeafBad(Eio); }
    if timescale.value == 0 { return LeafBad(Eproto); }
    var duration := TakeLong(f, wide.value, good, w, 6, []);
    if duration.None? { return LeafBad(Eio); }
    var tail := TakeFrom(f, 20, good, w, 8, []);
    if tail.None? { return LeafBad(Eio); }
    SkipTo(f, start + max);
    return Leaf((timescale.value, duration.value));
  }

  lemma MvhdFields(h: HeaderBox)
    requires h.Mvhd?
    ensures var w := FixedWords(h);
            && |w| == 28 && w[0] == 0x0100_0000 && w[5] == h.timescale && w[6] * TWO32 + w[7] == h.duration
  {
  }

  /** Track header: the track's number. Its duration is divided by the timescale of the movie. */
  method ReadTkhd(f: MediaFile, max: nat, movieTimescale: u32, ghost good: bool, ghost h: HeaderBox) returns (r: LeafResult<u32>)
    requires good ==> h.Tkhd? && f.Next(HeaderContent(h)) && max == |HeaderContent(h)|
    modifies f`pos
    ensures f.pos >= old(f.pos) && (r.Leaf? ==> f.pos == old(f.pos) + max)
    ensures r.Leaf? <==> LongEnough(f, old(f.pos), max, 84) && movieTimescale > 0
    ensures r.Leaf? ==> r.value == AfterTimes(f, old(f.pos))
    ensures good ==> r == if movieTimescale == 0 then LeafBad(Fault) else Leaf(h.id)
  {
    hide MediaFile.Word, MediaFile.WordsAre, WordBytes, TkhdWords;
    ghost var w: seq<u32> := [];
    if good {
      w := FixedWords(h);
      AllWords(w);
      TkhdFields(h);
    }
    var start := f.pos;
    var wide := ReadVersion(f, max, 84, good, w, []);
    if wide.LeafBad? { return LeafBad(wide.error); }
    var id := TakeOne(f, good, w, 5, []);
    if id.None? { return LeafBad(Eio); }
    var duration := TakeFrom(f, if wide.value then 3 else 2, good, w, 6, []);
    if duration.None? { return LeafBad(Eio); }
    if movieTimescale == 0 { return LeafBad(Fault); }
    var tail := TakeFrom(f, 15, good, w, 9, []);
    if tail.None? { return LeafBad(Eio); }
    SkipTo(f, start + max);
    return Leaf(id.value);
  }

  lemma TkhdFields(h: HeaderBox)
    requires h.Tkhd?
    ensures var w := FixedWords(h);
            |w| == 24 && w[0] / 0x0100_0000 == 1 && w[5] == h.id
  {
  }

  /** Media header: the timescale and the duration of the track. */
  method ReadMdhd(f: MediaFile, max: nat, ghost good: bool, ghost h: HeaderBox) returns (r: LeafResult<(u32, u64)>)
    requires good ==> h.Mdhd? && f.Next(HeaderContent(h)) && max == |HeaderContent(h)|
    modifies f`pos
    ensures f.pos >= old(f.pos) && (r.Leaf? ==> f.pos == old(f.pos) + max && r.value.0 > 0)
    ensures r.Leaf? <==> LongEnough(f, old(f.pos), max, 24) && AfterTimes(f, old(f.pos)) > 0
    ensures r.Leaf? ==> r.value.0 == AfterTimes(f, old(f.pos)) && DurationIs(f, old(f.pos), r.value.1)
    ensures good ==> r == if h.timescale == 0 then LeafBad(Eproto) else Leaf((h.timescale, h.duration))
  {
    hide MediaFile.Word, MediaFile.WordsAre, WordBytes, MdhdWords;
    ghost var w: seq<u32> := [];
    if good {
      w := FixedWords(h);
      AllWords(w);
      MdhdFields(h);
    }
    var start := f.pos;
    var wide := ReadVersion(f, max, 24, good, w, []);
    if wide.LeafBad? { return LeafBad(wide.error); }
    var timescale := TakeOne(f, good, w, 5, []);
    if timescale.None? { return LeafBad(Eio); }
    if timescale.value == 0 { return LeafBad(Eproto); }
    var duration := TakeLong(f, wide.value, good, w, 6, []);
    if duration.None? { return LeafBad(Eio); }
    var language := TakeFrom(f, 1, good, w, 8, []);
    if language.None? { return LeafBad(Eio); }
    SkipTo(f, start + max);
    return Leaf((timescale.value, duration.value));
  }

  lemma MdhdFields(h: HeaderBox)
    requires h.Mdhd?
    ensures var w := FixedWords(h);
            && |w| == 9 && w[0] == 0x0100_0000 && w[5] == h.timescale && w[6] * TWO32 + w[7] == h.duration
  {
  }

  lemma WordFollows(f: MediaFile, x: u32, ids: seq<u32>, id: u32, at: nat)
    requires f.WordsAre([x] + ids, at) && at + 4 * (1 + |ids|) + 4 <= |f.bytes| && id == f.Word(at + 4 * (1 + |ids|))
    ensures f.WordsAre([x] + (ids + [id]), at)
  {
    hide MediaFile.Word;
    assert [x] + (ids + [id]) == ([x] + ids) + [id];
  }

  lemma SecondWord(f: MediaFile, w: seq<u32>, at: nat)
    requires |w| == 2 && f.WordsAre(w, at)
    ensures f.WordsAre([w[1]] + [], at + 4)
  {
    assert f.WordsAre([w[1]], at + 4);
  }

  /** References of a track: the header of the first list, and up to ten words after it. */
  method ReadTref(f: MediaFile, max: nat, ghost good: bool, ghost h: HeaderBox) returns (r: LeafResult<(u32, seq<u32>)>)
    requires good ==> h.Tref? && h.ids != [] && f.Next(HeaderContent(h)) && max == |HeaderContent(h)|
    modifies f`pos
    ensures f.pos >= old(f.pos) && (r.Leaf? ==> f.pos == old(f.pos) + max)
    ensures r.Leaf? ==> max >= 12 && |r.value.1| == Min((max - 8) / 4, 10) && f.WordsAre([r.value.0] + r.value.1, old(f.pos) + 4)
    ensures good ==> |FixedWords(h)| >= 3 && r == Leaf((FixedWords(h)[1], ReferencesRead(FixedWords(h))))
  {
    hide WordBytes, TrefWords, MediaFile.WordsAre, MediaFile.Word;
    ghost var w: seq<u32> := [];
    if good {
      w := FixedWords(h);
      AllWords(w);
      TrefLength(h);
    }
    var start := f.pos;
    if max < 12 { return LeafBad(Einval); }
    var first := TakeFrom(f, 2, good, w, 0, []);
    if first.None? { return LeafBad(Eio); }
    var ids: seq<u32> := [];
    SecondWord(f, first.value, start);
    while 8 + 4 * |ids| + 4 <= max && |ids| < MAX_REFERENCES
      invariant |ids| <= MAX_REFERENCES && f.pos == start + 8 + 4 * |ids| <= start + max
      invariant f.WordsAre([first.value[1]] + ids, start + 4)
      invariant good ==> 2 + |ids| <= |w| && ids == w[2..2 + |ids|] && f.Next(WordBytes(w[2 + |ids|..]) + [])
      decreases MAX_REFERENCES - |ids|
    {
      var id := TakeOne(f, good, w, 2 + |ids|, []);
      if id.None? { return LeafBad(Eio); }
      if good { assert w[2..2 + |ids| + 1] == ids + [id.value]; }
      WordFollows(f, first.value[1], ids, id.value, start + 4);
      ids := ids + [id.value];
    }
    SkipTo(f, start + max);
    return Leaf((first.value[1], ids));
  }

  lemma TrefLength(h: HeaderBox)
    requires h.Tref? && h.ids != []
    ensures |FixedWords(h)| >= 3 && FixedWords(h)[1] == h.reference
  {
    var n := |h.ids|;
    assert |FixedWords(h)| == n * (n + 2);
    assert n * (n + 2) >= n + 2;
  }

  /** The handlers the demuxer knows, by their four characters. */
  predicate HandledAs(code: seq<byte>, handler: Handler)
  {
    match handler
    case VideoHandler => code == Characters("vide")
    case AudioHandler => code == Characters("soun")
    case HintHandler => code == Characters("hint")
    case MetadataHandler => code == Characters("meta")
    case TextHandler => code == Characters("text")
    case UnknownHandler => forall known | known in {"vide", "soun", "hint", "meta", "text"} :: code != Characters(known)
  }

  const NAME_BUFFER: nat := 99

  /** Handler: what the track is. The name is read up to its end, the end of the box or the end of the buffer. */
  method ReadHdlr(f: MediaFile, max: nat, ghost good: bool, ghost h: HeaderBox) returns (r: LeafResult<Handler>)
    requires good ==> (h.Hdlr? || h.MetaHdlr?) && f.Next(HeaderContent(h)) && max == |HeaderContent(h)|
    modifies f`pos
    ensures f.pos >= old(f.pos) && (r.Leaf? ==> f.pos == old(f.pos) + max)
    ensures r.Leaf? ==> old(f.pos) + 24 <= |f.bytes| && HandledAs(f.bytes[old(f.pos) + 8..old(f.pos) + 12], r.value)
    ensures good ==> r.Leaf? && (h.Hdlr? ==> r.value == HandlerOf(h.kind))
  {
    hide WordBytes, HdlrWords, MetaHdlrWords, MediaFile.Word, MediaFile.WordsAre, HandledAs, HandlerFrom, Variable;
    ghost var w: seq<u32>, rest := [], [];
    if good {
      w, rest := FixedWords(h), Variable(h);
      AllWords(w);
      HdlrFields(h);
    }
    var start := f.pos;
    if max < 24 { return LeafBad(Einval); }
    var fixedPart := TakeFrom(f, 6, good, w, 0, rest);
    if fixedPart.None? { return LeafBad(Eio); }
    HandlerThere(f, fixedPart.value, start);
    var named := ReadName(f, max - 24);
    if !named { return LeafBad(Eio); }
    SkipTo(f, start + max);
    return Leaf(HandlerFrom(fixedPart.value[2]));
  }

  /** The name, of which nothing is kept. */
  method ReadName(f: MediaFile, left: nat) returns (ok: bool)
    modifies f`pos
    ensures f.pos >= old(f.pos) && (ok ==> f.pos <= old(f.pos) + left) && (old(f.pos) + left <= |f.bytes| ==> ok)
  {
    var k := 0;
    while k < NAME_BUFFER && k < left
      invariant f.pos == old(f.pos) + k <= old(f.pos) + left
    {
      var x := f.Read8();
      if x.None? { return false; }
      k := k + 1;
      if x.value == 0 { break; }
    }
    return true;
  }

  /** The third word is the four characters of the handler. */
  lemma HandlerThere(f: MediaFile, w: seq<u32>, at: nat)
    requires |w| == 6 && f.WordsAre(w, at)
    ensures at + 24 <= |f.bytes| && HandledAs(f.bytes[at + 8..at + 12], HandlerFrom(w[2]))
  {
    hide MediaFile.Word;
    assert w[5] == f.Word(at + 4 * 5);
    assert w[2] == f.Word(at + 4 * 2);
    HandlerKnown(f.bytes[at + 8..at + 12]);
    WordIs(f, at + 8);
  }

  lemma WordIs(f: MediaFile, i: nat)
    requires i + 4 <= |f.bytes|
    ensures f.Word(i) == FromBE32(f.bytes[i..i + 4])
  {
  }

  lemma HandlerKnown(code: seq<byte>)
    requires |code| == 4
    ensures HandledAs(code, HandlerFrom(FromBE32(code)))
  {
    hide BE32, FromBE32;
    FourCharacters(0x76696465, "vide");
    FourCharacters(0x736f756e, "soun");
    FourCharacters(0x68696e74, "hint");
    FourCharacters(0x6d657461, "meta");
    FourCharacters(0x74657874, "text");
    BE32Inverse(code);
  }

  lemma FourCharacters(code: u32, s: string)
    requires |s| == 4 && forall i :: 0 <= i < 4 ==> (s[i] as int) < 0x100
    requires code == s[0] as int * 0x100_0000 + s[1] as int * 0x1_0000 + s[2] as int * 0x100 + s[3] as int
    ensures BE32(code) == Characters(s)
  {
    var hi: u16, lo: u16 := code / 0x1_0000, code % 0x1_0000;
    assert hi == s[0] as int * 0x100 + s[1] as int && lo == s[2] as int * 0x100 + s[3] as int;
    assert BE16(hi) == [s[0] as int, s[1] as int] && BE16(lo) == [s[2] as int, s[3] as int];
    assert Characters(s) == [s[0] as int, s[1] as int, s[2] as int, s[3] as int];
  }

  lemma HdlrFields(h: HeaderBox)
    requires h.Hdlr? || h.MetaHdlr?
    ensures var w := FixedWords(h);
            |w| == 6 && (h.Hdlr? ==> HandlerFrom(w[2]) == HandlerOf(h.kind))
  {
  }

  /** File type: brands up to the end of the box. */
  method ReadFtyp(f: MediaFile, max: nat, ghost good: bool) returns (r: LeafResult<()>)
    requires good ==> f.pos + max <= |f.bytes| && max >= 8
    modifies f`pos
    ensures f.pos >= old(f.pos) && (r.Leaf? ==> f.pos == old(f.pos) + max)
    ensures good ==> r.Leaf?
  {
    var start := f.pos;
    if max < 8 { return LeafBad(Einval); }
    var first := f.ReadWords(2);
    if first.None? { return LeafBad(Eio); }
    while f.pos + 4 <= start + max
      invariant start + 8 <= f.pos <= start + max
      decreases start + max - f.pos
    {
      var brand := f.Read32();
      if brand.None? { return LeafBad(Eio); }
    }
    SkipTo(f, start + max);
    return Leaf(());
  }

  /** A box of which so many bytes are read and nothing is kept. */
  method ReadPlain(f: MediaFile, n: nat, max: nat, ghost good: bool) returns (r: LeafResult<()>)
    requires good ==> f.pos + max <= |f.bytes| && max >= n
    modifies f`pos
    ensures f.pos >= old(f.pos) && (r.Leaf? ==> f.pos == old(f.pos) + max)
    ensures good ==> r.Leaf?
  {
    var start := f.pos;
    if max < n { return LeafBad(Einval); }
    var b := f.ReadBytes(n);
    if |b| < n { return LeafBad(Eio); }
    SkipTo(f, start + max);
    return Leaf(());
  }
}
