/**
 The tables buffer of the muxer: bounded writes and the back-patching of sizes.
 */
module TablesMemory {
  import opened Bytes
  import opened Wrappers

  datatype WriteResult = Wrote(n: nat) | NoSpace | Invalid

  /** Writing `n` more bytes when `max` are allowed in all. */
  function ByRoom(written: nat, n: nat, max: nat): WriteResult
  {
    if written + n <= max then Wrote(written + n) else NoSpace
  }

  /** The same when a writer may give up on the way. */
  function TreeResult(refusal: Option<nat>, written: nat, n: nat, max: nat): WriteResult
  {
    if refusal.None? then ByRoom(written, n, max)
    else if written + refusal.value <= max then Invalid
    else NoSpace
  }

  class TablesBuffer {
    const buf: array<byte>
    var offset: nat

    constructor (size: nat)
      ensures fresh(buf) && buf.Length == size && offset == 0
    {
      buf := new byte[size](_ => 0);
      offset := 0;
    }

    /** What has been written so far. */
    ghost function Content(): seq<byte>
      requires offset <= buf.Length
      reads this, buf
    {
      buf[..offset]
    }

    /** `max - written` more bytes are allowed, and the buffer has room for them. */
    ghost predicate Room(written: nat, max: nat)
      reads this
    {
      written <= max && offset + (max - written) <= buf.Length
    }

    method Write8(x: byte, written: nat, max: nat) returns (r: WriteResult)
      requires Room(written, max)
      modifies `offset, buf
      ensures r == if written + 1 <= max then Wrote(written + 1) else NoSpace
      ensures offset <= buf.Length
      ensures Content() == old(Content()) + if r.Wrote? then [x] else []
    {
      if written + 1 > max { return NoSpace; }
      buf[offset] := x;
      offset := offset + 1;
      return Wrote(written + 1);
    }

    method Write16(x: u16, written: nat, max: nat) returns (r: WriteResult)
      requires Room(written, max)
      modifies `offset, buf
      ensures r == if written + 2 <= max then Wrote(written + 2) else NoSpace
      ensures offset <= buf.Length
      ensures Content() == old(Content()) + if r.Wrote? then BE16(x) else []
    {
      if written + 2 > max { return NoSpace; }
      Copy(BE16(x), offset);
      offset := offset + 2;
      return Wrote(written + 2);
    }

    method Write32(x: u32, written: nat, max: nat) returns (r: WriteResult)
      requires Room(written, max)
      modifies `offset, buf
      ensures r == if written + 4 <= max then Wrote(written + 4) else NoSpace
      ensures offset <= buf.Length
      ensures Content() == old(Content()) + if r.Wrote? then BE32(x) else []
    {
      if written + 4 > max { return NoSpace; }
      Copy(BE32(x), offset);
      offset := offset + 4;
      return Wrote(written + 4);
    }

    /** memcpy into the buffer. */
    method Copy(b: seq<byte>, at: nat)
      requires at + |b| <= buf.Length
      modifies buf
      ensures buf[..] == old(buf[..at]) + b + old(buf[at + |b|..])
    {
      for i := 0 to |b|
        invariant buf[..at] == old(buf[..at])
        invariant buf[at..at + i] == b[..i]
        invariant buf[at + i..] == old(buf[at + i..])
      {
        buf[at + i] := b[i];
        assert buf[at..at + i + 1] == buf[at..at + i] + [b[i]];
      }
      assert buf[..] == buf[..at] + buf[at..at + |b|] + buf[at + |b|..];
    }

    method WriteBytes(b: seq<byte>, written: nat, max: nat) returns (r: WriteResult)
      requires Room(written, max)
      modifies `offset, buf
      ensures r == if written + |b| <= max then Wrote(written + |b|) else NoSpace
      ensures offset <= buf.Length && old(Content()) <= Content()
      ensures r.Wrote? ==> Content() == old(Content()) + b
    {
      r := Wrote(written);
      assert b[..0] == [];
      for i := 0 to |b|
        invariant r == Wrote(written + i) && Room(written + i, max)
        invariant offset <= buf.Length && Content() == old(Content()) + b[..i]
      {
        r := Write8(b[i], r.n, max);
        if r.NoSpace? { return; }
        assert b[..i + 1] == b[..i] + [b[i]];
      }
      assert b[..|b|] == b;
    }

    method WriteWords(w: seq<u32>, written: nat, max: nat) returns (r: WriteResult)
      requires Room(written, max)
      modifies `offset, buf
      ensures r == if written + 4 * |w| <= max then Wrote(written + 4 * |w|) else NoSpace
      ensures offset <= buf.Length && old(Content()) <= Content()
      ensures r.Wrote? ==> Content() == old(Content()) + WordBytes(w)
    {
      r := Wrote(written);
      assert w[..0] == [];
      for i := 0 to |w|
        invariant r == Wrote(written + 4 * i) && Room(written + 4 * i, max)
        invariant offset <= buf.Length && Content() == old(Content()) + WordBytes(w[..i])
      {
        r := Write32(w[i], r.n, max);
        if r.NoSpace? { return; }
        assert w[..i + 1][..i] == w[..i];
      }
      assert w[..|w|] == w;
    }

    /** Rewrites the size field of the box that ends here, unless the size announced was right. */
    method CheckSize(computed: nat, actual: nat)
      requires 4 <= actual <= offset <= buf.Length
      modifies buf
      ensures Content() == if computed == actual then old(Content())
                           else old(Content()[..offset - actual]) + BE32(actual % TWO32) + old(Content()[offset - actual + 4..])
    {
      hide BE32;
      if computed != actual {
        Copy(BE32(actual % TWO32), offset - actual);
        assert buf[..offset] == buf[..][..offset];
        assert old(buf[..offset - actual]) == old(Content()[..offset - actual]);
        assert old(buf[offset - actual + 4..])[..actual - 4] == old(Content()[offset - actual + 4..]);
      }
    }

    /** Size and type: what every writer starts with. */
    method WriteHeader(size: u32, kind: u32, max: nat) returns (r: WriteResult)
      requires Room(0, max)
      modifies `offset, buf
      ensures r == if 8 <= max then Wrote(8) else NoSpace
      ensures offset <= buf.Length && old(Content()) <= Content()
      ensures r.Wrote? ==> offset == old(offset) + 8 && Content() == old(Content()) + (BE32(size) + BE32(kind))
    {
      hide BE32;
      r := Write32(size, 0, max);
      if r.NoSpace? { return; }
      r := Write32(kind, r.n, max);
    }
  }
}
