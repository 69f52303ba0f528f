/**
 The media file as the muxer writes it: a position, writes that may fall short,
 and the boxes that go straight to the file rather than through the tables buffer.
 */
module MuxFile {
  import opened Bytes
  import opened BoxTree

  const FILE_MAX: int := TWO63 - 1

  const ISOM: u32 := 0x69736f6d
  const ISO2: u32 := 0x69736f32
  const MP41: u32 := 0x6d703431
  const AVC1: u32 := 0x61766331

  /** The file after `b` was written at `at`; a gap before it reads as zeros. */
  function Overwrite(c: seq<byte>, at: nat, b: seq<byte>): (r: seq<byte>)
    ensures |r| == if b == [] then |c| else Max(|c|, at + |b|)
    ensures forall i :: 0 <= i < |c| && !(at <= i < at + |b|) ==> r[i] == c[i]
    ensures forall i :: 0 <= i < |b| ==> r[at + i] == b[i]
  {
    if b == [] then c
    else
      seq(Max(|c|, at + |b|), i requires 0 <= i =>
        (if at <= i < at + |b| then b[i - at] else if i < |c| then c[i] else 0))
  }

  /** Nothing changed outside of a range of positions. */
  ghost predicate KeptOutside(c: seq<byte>, d: seq<byte>, lo: int, hi: int)
  {
    |c| <= |d| && forall i :: 0 <= i < |c| && !(lo <= i < hi) ==> d[i] == c[i]
  }

  lemma SliceKept(c: seq<byte>, d: seq<byte>, lo: int, hi: int, from: nat, to: nat)
    requires KeptOutside(c, d, lo, hi) && from <= to <= |c| && (to <= lo || hi <= from)
    ensures d[from..to] == c[from..to]
  {
  }

  lemma OverwriteTwice(c: seq<byte>, at: nat, a: seq<byte>, b: seq<byte>)
    ensures Overwrite(Overwrite(c, at, a), at + |a|, b) == Overwrite(c, at, a + b)
  {
    var l, r := Overwrite(Overwrite(c, at, a), at + |a|, b), Overwrite(c, at, a + b);
    if a == [] {
      assert a + b == b;
    } else if b == [] {
      assert a + b == a;
    } else {
      forall i | 0 <= i < |r| ensures l[i] == r[i] {
        if at <= i < at + |a| { assert l[i] == a[i - at] == (a + b)[i - at]; }
      }
    }
  }

  class DataFile {
    var content: seq<byte>
    var pos: nat
    var grants: seq<nat>  // how many bytes the next writes may take; later ones take everything

    constructor (content: seq<byte>, grants: seq<nat>)
      requires |content| <= FILE_MAX
      ensures this.content == content && pos == 0 && this.grants == grants
    {
      this.content, pos, this.grants := content, 0, grants;
    }

    predicate Valid()
      reads `content
    {
      |content| <= FILE_MAX
    }

    /** One write: any number of the bytes may make it to the file. */
    method Write(b: seq<byte>) returns (n: nat)
      requires Valid()
      modifies this
      ensures Valid() && n <= |b| && pos == old(pos) + n
      ensures content == Overwrite(old(content), old(pos), b[..n])
      ensures old(grants) == [] ==> grants == [] && n == Min(|b|, Max(FILE_MAX - old(pos), 0))
    {
      n := Min(|b|, Max(FILE_MAX - pos, 0));
      if grants != [] { n, grants := Min(n, grants[0]), grants[1..]; }
      content, pos := Overwrite(content, pos, b[..n]), pos + n;
    }

    method SeekTo(p: nat)
      modifies `pos
      ensures pos == p
    {
      pos := p;
    }

    method SeekEnd() returns (end: nat)
      modifies `pos
      ensures end == pos == |content|
    {
      pos := |content|;
      return pos;
    }

    /** The file keeps its first bytes; a longer one is filled with zeros. */
    method Truncate(n: nat)
      requires n <= FILE_MAX
      modifies `content
      ensures Valid() && |content| == n
      ensures n <= |old(content)| ==> content == old(content)[..n]
    {
      content := if n <= |content| then content[..n] else content + seq(n - |content|, _ => 0);
    }

    /** Words one by one, up to the first that cannot be written whole. */
    method WriteWords(w: seq<u32>) returns (ok: bool)
      requires Valid()
      modifies this
      ensures Valid()
      ensures KeptOutside(old(content), content, old(pos), old(pos) + 4 * |w|)
      ensures |content| <= Max(|old(content)|, old(pos) + 4 * |w|)
      ensures ok ==> content == Overwrite(old(content), old(pos), WordBytes(w)) && pos == old(pos) + 4 * |w|
      ensures old(grants) == [] ==> grants == [] && (old(pos) + 4 * |w| <= FILE_MAX ==> ok)
    {
      hide BE32, Overwrite;
      assert w[..0] == [];
      assert Overwrite(content, pos, []) == content;
      for i := 0 to |w|
        invariant Valid() && pos == old(pos) + 4 * i
        invariant content == Overwrite(old(content), old(pos), WordBytes(w[..i]))
        invariant old(grants) == [] ==> grants == []
      {
        var n := Write(BE32(w[i]));
        assert w[..i + 1][..i] == w[..i];
        OverwriteTwice(old(content), old(pos), WordBytes(w[..i]), BE32(w[i])[..n]);
        if n != 4 { return false; }
        assert BE32(w[i])[..n] == BE32(w[i]);
      }
      assert w[..|w|] == w;
      return true;
    }

    /** The brands, at the start of the file. */
    method WriteFtyp() returns (ok: bool)
      requires Valid() && pos == 0
      modifies this
      ensures Valid() && KeptOutside(old(content), content, 0, 32) && |content| <= Max(|old(content)|, 32)
      ensures ok ==> content == Overwrite(old(content), 0, WordBytes(FTYP_WORDS)) && pos == 32
      ensures old(grants) == [] ==> ok && grants == []
    {
      ok := WriteWords(FTYP_WORDS);
    }

    /** A free box of `len` bytes: its header is written, the rest is skipped. */
    method WriteFree(len: nat, max: nat) returns (ok: bool)
      requires Valid()
      modifies this
      ensures Valid()
      ensures KeptOutside(old(content), content, old(pos), old(pos) + 8)
      ensures |content| <= Max(|old(content)|, old(pos) + 8)
      ensures !(8 <= len <= U32_MAX) ==> !ok && content == old(content) && grants == old(grants)
      ensures ok ==> 8 <= len <= U32_MAX && len <= max && pos == old(pos) + len
      ensures ok ==> content == Overwrite(old(content), old(pos), WordBytes([len, FREE]))
      ensures old(grants) == [] ==> grants == [] && (8 <= len <= Min(max, U32_MAX) && old(pos) + 8 <= FILE_MAX ==> ok)
    {
      if len < 8 || len > U32_MAX { return false; }
      if max < 4 { return false; }
      if max < 8 {
        ok := WriteWords([len]);
        return false;
      }
      ok := WriteWords([len, FREE]);
      if !ok { return; }
      if len > max { return false; }
      pos := pos + (len - 8);
    }

    /** The header of the media data: 16 bytes in both of its forms. */
    method WriteMdat(size: nat) returns (ok: bool)
      requires Valid() && size + 8 < TWO64
      modifies this
      ensures Valid()
      ensures KeptOutside(old(content), content, old(pos), old(pos) + 16)
      ensures |content| <= Max(|old(content)|, old(pos) + 16)
      ensures ok ==> content == Overwrite(old(content), old(pos), WordBytes(MdatWords(size))) && pos == old(pos) + 16
      ensures old(grants) == [] ==> grants == [] && (old(pos) + 16 <= FILE_MAX ==> ok)
    {
      ok := WriteWords(MdatWords(size));
    }
  }

  const FTYP_WORDS: seq<u32> := [32, FTYP, ISOM, 2, ISOM, ISO2, MP41, AVC1]

  /** An empty free box and a 32-bit size, or a 64-bit size over both. */
  function MdatWords(size: nat): (w: seq<u32>)
    requires size + 8 < TWO64
    ensures |w| == 4
  {
    if size <= U32_MAX then [8, FREE, size, MDAT]
    else [1, MDAT, (size + 8) / TWO32, (size + 8) % TWO32]
  }
}
