/**
 The top level of a finished file: which boxes its bytes are, with the movie box
 in the reserved area or at the end, and the media data in either of its forms.
 */
module FileLayout {
  import opened Bytes
  import opened BoxTree
  import opened MuxFile

  function Ftyp(): Box
  {
    Opaque(FTYP, WordBytes(FTYP_WORDS[2..]))
  }

  /** The media data as boxes: an empty free box and a 32-bit mdat, or a 64-bit mdat in the same place. */
  function MdatBoxes(data: seq<byte>): seq<Box>
  {
    if 8 + |data| <= U32_MAX then [Opaque(FREE, []), Opaque(MDAT, data)] else [Large(MDAT, data)]
  }

  /** A free box over `pad` bytes, if there are any. */
  function PadBoxes(pad: seq<byte>): seq<Box>
  {
    if |pad| < 8 then [] else [Opaque(FREE, pad[8..])]
  }

  function InPlace(moov: Box, pad: seq<byte>, data: seq<byte>): seq<Box>
  {
    [Ftyp()] + ([moov] + (PadBoxes(pad) + MdatBoxes(data)))
  }

  function AtEnd(gap: seq<byte>, data: seq<byte>, moov: Box): seq<Box>
  {
    [Ftyp()] + (PadBoxes(gap) + (MdatBoxes(data) + [moov]))
  }

  lemma {:induction false} WordsOne(x: u32)
    ensures WordBytes([x]) == BE32(x)
  {
    assert [x][..0] == [];
  }

  lemma WordsTwo(x: u32, y: u32)
    ensures WordBytes([x, y]) == BE32(x) + BE32(y)
  {
    hide BE32;
    assert [x, y] == [x] + [y];
    WordBytesAppend([x], [y]);
    WordsOne(x);
    WordsOne(y);
  }

  lemma FtypBytes()
    ensures BoxBytes(Ftyp()) == WordBytes(FTYP_WORDS) && |WordBytes(FTYP_WORDS)| == 32
  {
    hide BE32;
    assert FTYP_WORDS == FTYP_WORDS[..2] + FTYP_WORDS[2..] && FTYP_WORDS[..2] == [32, FTYP];
    WordBytesAppend(FTYP_WORDS[..2], FTYP_WORDS[2..]);
    WordsTwo(32, FTYP);
  }

  lemma PadBytes(pad: seq<byte>)
    requires (pad == [] || (8 <= |pad| < TWO32 && pad[..8] == WordBytes([|pad|, FREE])))
    ensures AllBounded(PadBoxes(pad)) && AllBytes(PadBoxes(pad)) == pad
  {
    hide BE32, WordBytes;
    if pad != [] {
      WordsTwo(|pad|, FREE);
      AllBytesOne(Opaque(FREE, pad[8..]));
      assert pad == pad[..8] + pad[8..];
    }
  }

  lemma WordsFour(w: seq<u32>)
    requires |w| == 4
    ensures WordBytes(w) == BE32(w[0]) + BE32(w[1]) + (BE32(w[2]) + BE32(w[3]))
  {
    hide BE32, WordBytes;
    assert w == w[..2] + w[2..] && w[..2] == [w[0], w[1]] && w[2..] == [w[2], w[3]];
    WordBytesAppend(w[..2], w[2..]);
    WordsTwo(w[0], w[1]);
    WordsTwo(w[2], w[3]);
  }

  lemma Header64(n: u64)
    ensures BE64(n) == BE32(n / TWO32) + BE32(n % TWO32)
  {
  }

  lemma MdatBytes(data: seq<byte>)
    requires |data| + 16 < TWO63
    ensures AllBounded(MdatBoxes(data))
    ensures AllBytes(MdatBoxes(data)) == WordBytes(MdatWords(8 + |data|)) + data
  {
    hide BE32, BE64, WordBytes, AllBytes;
    if 8 + |data| <= U32_MAX { NarrowMdat(data); } else { WideMdat(data); }
  }

  lemma AllBytesTwo(a: Box, b: Box)
    requires Bounded(a) && Bounded(b)
    ensures AllBounded([a, b]) && AllBytes([a, b]) == BoxBytes(a) + BoxBytes(b)
  {
    hide BoxBytes, Bounded;
    assert [a, b][1..] == [b];
    AllBytesOne(b);
  }

  lemma NarrowMdat(data: seq<byte>)
    requires 8 + |data| <= U32_MAX
    ensures AllBounded([Opaque(FREE, []), Opaque(MDAT, data)])
    ensures AllBytes([Opaque(FREE, []), Opaque(MDAT, data)]) == WordBytes(MdatWords(8 + |data|)) + data
  {
    hide BE32, WordBytes, AllBytes, AllBounded, BoxBytes;
    WordsFour(MdatWords(8 + |data|));
    OpaqueBytes(FREE, []);
    OpaqueBytes(MDAT, data);
    AllBytesTwo(Opaque(FREE, []), Opaque(MDAT, data));
    Regroup(BE32(8) + BE32(FREE), BE32(8 + |data|) + BE32(MDAT), data);
  }

  lemma OpaqueBytes(kind: u32, p: seq<byte>)
    requires 8 + |p| < TWO32
    ensures BoxBytes(Opaque(kind, p)) == BE32(8 + |p|) + BE32(kind) + p
    ensures p == [] ==> BoxBytes(Opaque(kind, p)) == BE32(8) + BE32(kind)
  {
    hide BE32;
  }

  lemma WideMdat(data: seq<byte>)
    requires U32_MAX < 8 + |data| && |data| + 16 < TWO63
    ensures AllBounded([Large(MDAT, data)])
    ensures AllBytes([Large(MDAT, data)]) == WordBytes(MdatWords(8 + |data|)) + data
  {
    hide BE32, BE64, WordBytes, AllBytes;
    var n: u64 := 16 + |data|;
    WordsFour(MdatWords(8 + |data|));
    Header64(n);
    AllBytesOne(Large(MDAT, data));
  }

  lemma Regroup(a: seq<byte>, b: seq<byte>, c: seq<byte>)
    ensures a + (b + c) == a + b + c
  {
  }

  lemma AllBytesCons(b: Box, bs: seq<Box>)
    requires Bounded(b) && AllBounded(bs)
    ensures AllBounded([b] + bs) && AllBytes([b] + bs) == BoxBytes(b) + AllBytes(bs)
  {
    hide BoxBytes, Bounded;
    AllBytesAppend([b], bs);
    AllBytesOne(b);
  }

  /** The header region of the file, up to the data, is in its final form. */
  ghost predicate Headed(c: seq<byte>, base: nat, dataEnd: nat)
  {
    && 32 <= base && base + 16 <= dataEnd <= |c| < TWO63
    && c[..32] == WordBytes(FTYP_WORDS)
    && c[base..base + 16] == WordBytes(MdatWords(dataEnd - base - 8))
  }

  /** A region is empty or a free box. */
  ghost predicate Padded(c: seq<byte>, from: nat, to: nat)
  {
    && from <= to <= |c|
    && (from < to ==> 8 <= to - from < TWO32 && c[from..from + 8] == WordBytes([to - from, FREE]))
  }

  lemma Cut(c: seq<byte>, i: nat, j: nat)
    requires i <= j <= |c|
    ensures c[i..] == c[i..j] + c[j..]
  {
  }

  lemma CutFive(c: seq<byte>, i: nat, j: nat, k: nat, l: nat)
    requires i <= j <= k <= l <= |c|
    ensures c == c[..i] + (c[i..j] + (c[j..k] + (c[k..l] + c[l..])))
  {
    Cut(c, 0, i);
    Cut(c, i, j);
    Cut(c, j, k);
    Cut(c, k, l);
  }

  /** The movie box in the reserved area: the boxes tile the file. */
  lemma InPlaceTiles(c: seq<byte>, base: nat, moov: Box)
    requires Bounded(moov) && Headed(c, base, |c|)
    requires var n := 32 + |BoxBytes(moov)|; n <= base && c[32..n] == BoxBytes(moov) && Padded(c, n, base)
    ensures var bs := InPlace(moov, c[32 + |BoxBytes(moov)|..base], c[base + 16..]);
            AllBounded(bs) && c == AllBytes(bs)
  {
    hide WordBytes, BoxBytes, AllBytes, Bounded, PadBoxes, MdatBoxes, MdatWords;
    var n := 32 + |BoxBytes(moov)|;
    var pad, data := c[n..base], c[base + 16..];
    assert n < base ==> pad[..8] == c[n..n + 8];
    PadBytes(pad);
    InPlaceBytes(moov, pad, data);
    CutFive(c, 32, n, base, base + 16);
  }

  lemma InPlaceBytes(moov: Box, pad: seq<byte>, data: seq<byte>)
    requires Bounded(moov) && |data| + 16 < TWO63 && AllBounded(PadBoxes(pad)) && AllBytes(PadBoxes(pad)) == pad
    ensures AllBounded(InPlace(moov, pad, data))
    ensures AllBytes(InPlace(moov, pad, data)) ==
            WordBytes(FTYP_WORDS) + (BoxBytes(moov) + (pad + (WordBytes(MdatWords(8 + |data|)) + data)))
  {
    hide WordBytes, BoxBytes, AllBytes, Bounded, AllBounded, PadBoxes, MdatBoxes, MdatWords, Ftyp;
    MdatBytes(data);
    FtypBytes();
    FtypBounded();
    AllBytesAppend(PadBoxes(pad), MdatBoxes(data));
    AllBytesCons(moov, PadBoxes(pad) + MdatBoxes(data));
    AllBytesCons(Ftyp(), [moov] + (PadBoxes(pad) + MdatBoxes(data)));
  }

  lemma FtypBounded()
    ensures Bounded(Ftyp())
  {
  }

  /** The movie box at the end: the boxes tile the file. */
  lemma AtEndTiles(c: seq<byte>, base: nat, end: nat, moov: Box)
    requires Bounded(moov) && end <= |c| && Headed(c, base, end)
    requires c[end..] == BoxBytes(moov) && Padded(c, 32, base)
    ensures var bs := AtEnd(c[32..base], c[base + 16..end], moov);
            AllBounded(bs) && c == AllBytes(bs)
  {
    hide WordBytes, BoxBytes, AllBytes, Bounded, PadBoxes, MdatBoxes, MdatWords;
    var gap, data := c[32..base], c[base + 16..end];
    assert 32 < base ==> gap[..8] == c[32..40];
    PadBytes(gap);
    AtEndBytes(gap, data, moov);
    CutFive(c, 32, base, base + 16, end);
  }

  lemma AtEndBytes(gap: seq<byte>, data: seq<byte>, moov: Box)
    requires Bounded(moov) && |data| + 16 < TWO63 && AllBounded(PadBoxes(gap)) && AllBytes(PadBoxes(gap)) == gap
    ensures AllBounded(AtEnd(gap, data, moov))
    ensures AllBytes(AtEnd(gap, data, moov)) ==
            WordBytes(FTYP_WORDS) + (gap + (WordBytes(MdatWords(8 + |data|)) + (data + BoxBytes(moov))))
  {
    hide WordBytes, BoxBytes, AllBytes, Bounded, AllBounded, PadBoxes, MdatBoxes, MdatWords, Ftyp;
    MdatBytes(data);
    FtypBytes();
    FtypBounded();
    AllBytesOne(moov);
    OneBounded(moov);
    AllBytesAppend(MdatBoxes(data), [moov]);
    AllBytesAppend(PadBoxes(gap), MdatBoxes(data) + [moov]);
    AllBytesCons(Ftyp(), PadBoxes(gap) + (MdatBoxes(data) + [moov]));
    Regroup(WordBytes(MdatWords(8 + |data|)), data, BoxBytes(moov));
  }

  lemma OneBounded(b: Box)
    requires Bounded(b)
    ensures AllBounded([b])
  {
  }

  /** Bytes of a list of boxes come in eights at least: one to seven bytes of padding are no box at all. */
  lemma {:induction false} NoSmallBoxes(bs: seq<Box>)
    requires AllBounded(bs)
    ensures |AllBytes(bs)| == 0 || |AllBytes(bs)| >= 8
  {
    hide BE32, BE64, WordBytes, AllBounded;
    if bs != [] {
      assert AllBounded(bs[1..]) && Bounded(bs[0]) by { FirstBounded(bs); }
      NoSmallBoxes(bs[1..]);
      assert |BoxBytes(bs[0])| == 0 || |BoxBytes(bs[0])| >= 8;
    }
  }

  lemma FirstBounded(bs: seq<Box>)
    requires bs != [] && AllBounded(bs)
    ensures Bounded(bs[0]) && AllBounded(bs[1..])
  {
  }

  /** A region of the given length can be filled with boxes exactly when it is empty or has room for a header. */
  lemma FillableWithBoxes(n: nat)
    requires n < TWO32
    ensures (exists bs :: AllBounded(bs) && |AllBytes(bs)| == n) <==> n == 0 || n >= 8
  {
    hide AllBytes, BoxBytes;
    if n == 0 {
      EmptyBytes();
      assert AllBounded([]) && |AllBytes([])| == 0;
    } else if n >= 8 {
      var b := Opaque(FREE, seq(n - 8, _ => 0));
      AllBytesOne(b);
      OpaqueLength(b);
      assert AllBounded([b]) && |AllBytes([b])| == n;
    }
    forall bs | AllBounded(bs) && |AllBytes(bs)| == n ensures n == 0 || n >= 8 {
      NoSmallBoxes(bs);
    }
  }

  lemma EmptyBytes()
    ensures AllBounded([]) && AllBytes([]) == []
  {
  }

  lemma OpaqueLength(b: Box)
    requires b.Opaque?
    ensures Bounded(b) && |BoxBytes(b)| == 8 + |b.payload|
  {
  }
}
