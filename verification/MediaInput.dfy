/**
 A media file as the demuxer reads it: its bytes and a position.
 */
module MediaInput {
  import opened Bytes
  import opened Wrappers

  /** The errors of the reading functions; a division by zero ends the program. */
  datatype ReadError = Einval | Eproto | Eexist | Eio | Enodata | Enosys | Fault

  class MediaFile {
    const bytes: seq<byte>
    var pos: nat

    constructor (bytes: seq<byte>)
      ensures this.bytes == bytes && pos == 0
    {
      this.bytes, pos := bytes, 0;
    }

    /** The next bytes of the file are these. */
    ghost predicate Next(b: seq<byte>)
      reads `pos
    {
      pos + |b| <= |bytes| && bytes[pos..pos + |b|] == b
    }

    /** The four bytes from `i` as a number. */
    function Word(i: nat): u32
      requires i + 4 <= |bytes|
    {
      FromBE32(bytes[i..i + 4])
    }

    /** These are the words from position `at` on. */
    ghost predicate WordsAre(w: seq<u32>, at: nat)
    {
      forall j :: 0 <= j < |w| ==> at + 4 * j + 4 <= |bytes| && w[j] == Word(at + 4 * j)
    }

    /** Since position `at`, `n` bytes were read or stepped over; reading may have ended with the file. */
    ghost predicate Spent(at: nat, n: nat)
      reads `pos
    {
      at <= pos <= at + n && (at + n <= |bytes| ==> pos == at + n)
    }

    method Read32() returns (r: Option<u32>)
      modifies `pos
      ensures r.Some? <==> old(pos) + 4 <= |bytes|
      ensures r.Some? ==> pos == old(pos) + 4 && r.value == FromBE32(bytes[old(pos)..pos])
      ensures pos >= old(pos)
    {
      if pos + 4 > |bytes| { pos := Max(pos, |bytes|); return None; }
      pos := pos + 4;
      return Some(FromBE32(bytes[pos - 4..pos]));
    }

    method Read16() returns (r: Option<u16>)
      modifies `pos
      ensures r.Some? <==> old(pos) + 2 <= |bytes|
      ensures r.Some? ==> pos == old(pos) + 2 && r.value == FromBE16(bytes[old(pos)..pos])
      ensures pos >= old(pos)
    {
      if pos + 2 > |bytes| { pos := Max(pos, |bytes|); return None; }
      pos := pos + 2;
      return Some(FromBE16(bytes[pos - 2..pos]));
    }

    method Read8() returns (r: Option<byte>)
      modifies `pos
      ensures r.Some? <==> old(pos) + 1 <= |bytes|
      ensures r.Some? ==> pos == old(pos) + 1 && r.value == bytes[old(pos)]
      ensures pos >= old(pos)
    {
      if pos + 1 > |bytes| { pos := Max(pos, |bytes|); return None; }
      pos := pos + 1;
      return Some(bytes[pos - 1]);
    }

    /** A read of several bytes, which may find fewer. */
    method ReadBytes(n: nat) returns (b: seq<byte>)
      modifies `pos
      ensures |b| <= n && pos == old(pos) + |b| && (old(pos) + n <= |bytes| ==> b == bytes[old(pos)..old(pos) + n])
      ensures (|b| < n ==> pos >= |bytes|) && (b != [] ==> pos <= |bytes|)
    {
      if pos >= |bytes| { return []; }
      var end := Min(pos + n, |bytes|);
      b, pos := bytes[pos..end], end;
    }

    lemma NoWords(at: nat)
      ensures WordsAre([], at)
    {
    }

    lemma WordsGrow(w: seq<u32>, at: nat)
      requires WordsAre(w, at) && at + 4 * |w| + 4 <= |bytes|
      ensures WordsAre(w + [FromBE32(bytes[at + 4 * |w|..at + 4 * |w| + 4])], at)
    {
      hide FromBE32;
    }

    method ReadWords(n: nat) returns (r: Option<seq<u32>>)
      modifies `pos
      ensures r.Some? <==> old(pos) + 4 * n <= |bytes| || n == 0
      ensures r.Some? ==> |r.value| == n && pos == old(pos) + 4 * n
      ensures r.Some? && n > 0 ==> WordBytes(r.value) == bytes[old(pos)..pos]
      ensures r.Some? ==> WordsAre(r.value, old(pos))
      ensures pos >= old(pos)
    {
      hide WordsAre, FromBE32, BE32;
      var w: seq<u32> := [];
      NoWords(pos);
      for i := 0 to n
        invariant |w| == i && pos == old(pos) + 4 * i && (i > 0 ==> pos <= |bytes|)
        invariant i > 0 ==> WordBytes(w) == bytes[old(pos)..pos]
        invariant WordsAre(w, old(pos))
      {
        var x := Read32();
        if x.None? { return None; }
        BE32Inverse(bytes[pos - 4..pos]);
        WordsGrow(w, old(pos));
        assert (w + [x.value])[..i] == w;
        w := w + [x.value];
      }
      return Some(w);
    }

    lemma Slice(start: nat, b: seq<byte>, i: nat, j: nat)
      requires start + |b| <= |bytes| && bytes[start..start + |b|] == b && i <= j <= |b|
      ensures bytes[start + i..start + j] == b[i..j]
    {
      forall k | i <= k < j ensures bytes[start + k] == b[k] {
        assert bytes[start..start + |b|][k] == b[k];
      }
    }
  }

  // ---------- reads; when `good`, the next bytes are the given ones, and then `rest` ----------

  lemma NextSplit(f: MediaFile, a: seq<byte>, rest: seq<byte>)
    requires f.Next(a + rest)
    ensures f.pos + |a| + |rest| <= |f.bytes| && f.bytes[f.pos..f.pos + |a|] == a
    ensures f.bytes[f.pos + |a|..f.pos + |a| + |rest|] == rest
  {
    f.Slice(f.pos, a + rest, 0, |a|);
    f.Slice(f.pos, a + rest, |a|, |a| + |rest|);
    assert (a + rest)[0..|a|] == a && (a + rest)[|a|..|a| + |rest|] == rest;
  }

  method Take8(f: MediaFile, ghost good: bool, ghost x: byte, ghost rest: seq<byte>) returns (r: Option<byte>)
    requires good ==> f.Next([x] + rest)
    modifies f`pos
    ensures f.pos >= old(f.pos) && (r.Some? ==> f.pos == old(f.pos) + 1)
    ensures good ==> r == Some(x) && f.Next(rest)
  {
    if good { NextSplit(f, [x], rest); }
    ghost var at := f.pos;
    r := f.Read8();
    assert good ==> f.bytes[at..at + 1][0] == x;
  }

  method Take16(f: MediaFile, ghost good: bool, ghost x: u16, ghost rest: seq<byte>) returns (r: Option<u16>)
    requires good ==> f.Next(BE16(x) + rest)
    modifies f`pos
    ensures f.pos >= old(f.pos) && (r.Some? ==> f.pos == old(f.pos) + 2)
    ensures good ==> r == Some(x) && f.Next(rest)
  {
    hide BE16, FromBE16;
    if good { NextSplit(f, BE16(x), rest); }
    r := f.Read16();
  }

  method Take32(f: MediaFile, ghost good: bool, ghost x: u32, ghost rest: seq<byte>) returns (r: Option<u32>)
    requires good ==> f.Next(BE32(x) + rest)
    modifies f`pos
    ensures f.pos >= old(f.pos) && (r.Some? ==> f.pos == old(f.pos) + 4)
    ensures good ==> r == Some(x) && f.Next(rest)
  {
    hide BE32, FromBE32;
    if good { NextSplit(f, BE32(x), rest); }
    r := f.Read32();
  }

  method TakeBytes(f: MediaFile, n: nat, ghost good: bool, ghost b: seq<byte>, ghost rest: seq<byte>) returns (r: seq<byte>)
    requires good ==> f.Next(b + rest) && |b| == n
    modifies f`pos
    ensures f.pos == old(f.pos) + |r| && |r| <= n && f.Spent(old(f.pos), n)
    ensures good ==> r == b && f.Next(rest)
  {
    if good { NextSplit(f, b, rest); }
    r := f.ReadBytes(n);
  }

  method TakeWords(f: MediaFile, n: nat, ghost good: bool, ghost w: seq<u32>, ghost rest: seq<byte>) returns (r: Option<seq<u32>>)
    requires good ==> |w| == n && f.Next(WordBytes(w) + rest)
    modifies f`pos
    ensures f.pos >= old(f.pos) && (r.Some? ==> |r.value| == n && f.pos == old(f.pos) + 4 * n)
    ensures (r.Some? <==> old(f.pos) + 4 * n <= |f.bytes| || n == 0) && (r.Some? ==> f.WordsAre(r.value, old(f.pos)))
    ensures good ==> r == Some(w) && f.Next(rest)
  {
    hide WordBytes, MediaFile.WordsAre;
    if good { NextSplit(f, WordBytes(w), rest); }
    r := f.ReadWords(n);
    if good && n > 0 { WordBytesInjective(r.value, w); }
  }

  /** Steps over bytes. */
  method Skip(f: MediaFile, n: nat, ghost good: bool, ghost b: seq<byte>, ghost rest: seq<byte>)
    requires good ==> f.Next(b + rest) && |b| == n
    modifies f`pos
    ensures f.pos == old(f.pos) + n && (good ==> f.Next(rest))
  {
    if good { NextSplit(f, b, rest); }
    f.pos := f.pos + n;
  }
}
