/**
 The recovery journal as a file: a header whose length field commits what has been
 appended, and appends that may stop at any byte.
 */
module JournalFile {
  import opened Bytes
  import opened Wrappers
  import opened JournalFormat

  /** The header: the committed length, the size of the table area in megabytes, the path of the media file, no UUID. */
  function PHeader(tablesSize: u64, megabytes: u64, path: seq<byte>, t: seq<byte>): seq<byte>
  {
    P32(MAGIC, P32(VERSION, P64(tablesSize, P64(megabytes, PArr32(path, P32(0, t))))))
  }

  const SIZE_AT: nat := 8

  /** The first bytes of a cover record: the one record whose failure does not stop a sync. */
  ghost predicate PartOfCover(t: seq<byte>)
  {
    exists kind: u32, data: seq<byte> {:trigger PRecord(Cover(kind, data), [])} :: |data| < TWO64 && t <= PRecord(Cover(kind, data), [])
  }

  lemma NothingOfCover()
    ensures PartOfCover([])
  {
    assert [] <= PRecord(Cover(0, []), []);
  }

  /** What was written of an append, when it was not all of it. */
  lemma Partly(a: seq<byte>, w: seq<byte>, b: seq<byte>) returns (t: seq<byte>)
    requires a <= w <= a + b
    ensures w == a + t && t <= b
  {
    t := w[|a|..];
    assert w == w[..|a|] + w[|a|..];
    assert (a + b)[..|w|] == w;
    assert b[..|t|] == t;
  }

  /** Rewriting the length field changes the header's length field and nothing else. */
  lemma CommitHeader(a: u64, b: u64, megabytes: u64, path: seq<byte>, t: seq<byte>)
    ensures var s := PHeader(a, megabytes, path, t);
            && |s| >= SIZE_AT + 8
            && s[..SIZE_AT] + LE64(b) + s[SIZE_AT + 8..] == PHeader(b, megabytes, path, t)
  {
    hide LE32, LE64;
    var tail := P64(megabytes, PArr32(path, P32(0, t)));
    var s := PHeader(a, megabytes, path, t);
    assert s == LE32(MAGIC) + (LE32(VERSION) + (LE64(a) + tail));
    assert s[..SIZE_AT] == LE32(MAGIC) + LE32(VERSION);
    assert s[SIZE_AT + 8..] == tail;
    assert PHeader(b, megabytes, path, t) == LE32(MAGIC) + (LE32(VERSION) + (LE64(b) + tail));
  }

  /** Appending records to a journal that ends with whole ones. */
  lemma RecordsMore(a: u64, megabytes: u64, path: seq<byte>, rs: seq<Record>, more: seq<Record>, t: seq<byte>)
    ensures PHeader(a, megabytes, path, PRecords(rs, [])) + PRecords(more, t) == PHeader(a, megabytes, path, PRecords(rs + more, t))
  {
    hide PHeader, PRecords;
    HeaderTail(a, megabytes, path, PRecords(rs, []), PRecords(more, t));
    RecordsTail(rs, [], PRecords(more, t));
    assert [] + PRecords(more, t) == PRecords(more, t);
    RecordsAppend(rs, more, t);
  }

  /** The same on the whole file, of which the first `pos` bytes are meant to be read. */
  lemma CommitPrefix(content: seq<byte>, pos: nat, a: u64, b: u64, megabytes: u64, path: seq<byte>, t: seq<byte>)
    requires SIZE_AT + 8 <= pos <= |content| && content[..pos] == PHeader(a, megabytes, path, t)
    ensures (content[..SIZE_AT] + LE64(b) + content[SIZE_AT + 8..])[..pos] == PHeader(b, megabytes, path, t)
  {
    hide LE64, PHeader;
    CommitHeader(a, b, megabytes, path, t);
    var s := content[..pos];
    assert s[..SIZE_AT] == content[..SIZE_AT];
    assert s[SIZE_AT + 8..] == content[SIZE_AT + 8..pos];
    assert (content[..SIZE_AT] + LE64(b) + content[SIZE_AT + 8..])[..pos] == content[..SIZE_AT] + LE64(b) + content[SIZE_AT + 8..pos];
  }

  lemma HeaderTail(a: u64, megabytes: u64, path: seq<byte>, t: seq<byte>, u: seq<byte>)
    ensures PHeader(a, megabytes, path, t + u) == PHeader(a, megabytes, path, t) + u
    ensures |PHeader(a, megabytes, path, t)| == 32 + |path| + |t|
  {
    hide LE32, LE64, P32, PArr32, P64;
    P32Tail(0, t, u);
    PArr32Tail(path, P32(0, t), u);
    P64Tail(megabytes, PArr32(path, P32(0, t)), u);
    P64Tail(a, P64(megabytes, PArr32(path, P32(0, t))), u);
    P32Tail(VERSION, P64(a, P64(megabytes, PArr32(path, P32(0, t)))), u);
    P32Tail(MAGIC, P32(VERSION, P64(a, P64(megabytes, PArr32(path, P32(0, t))))), u);
    HeaderLength(a, megabytes, path, t);
  }

  lemma HeaderLength(a: u64, megabytes: u64, path: seq<byte>, t: seq<byte>)
    ensures |PHeader(a, megabytes, path, t)| == 32 + |path| + |t|
  {
    hide LE32, LE64;
  }

  class TablesFile {
    var content: seq<byte>
    var pos: nat
    var room: nat               // bytes the device still accepts before it fails or the power goes
    ghost var safe: seq<byte>   // what no append may touch

    constructor (space: seq<byte>, room: nat)
      requires |space| < TWO63 && room < TWO63
      ensures content == space && pos == 0 && this.room == room && safe == []
    {
      // a file that may have been preallocated
      content, pos, this.room, safe := space, 0, room, [];
    }

    ghost predicate Valid()
      reads this
    {
      |safe| <= pos <= |content| && safe <= content && |content| < TWO63 && pos + room < TWO63
    }

    ghost function Written(): seq<byte>
      requires pos <= |content|
      reads this
    {
      content[..pos]
    }

    /**
     Appends bytes; `goal` is what the file holds once `rest` has been appended as
     well. A failed append leaves any number of its bytes behind.
     */
    method Write(b: seq<byte>, ghost goal: seq<byte>, ghost rest: seq<byte>) returns (ok: bool)
      requires Valid() && Written() + (b + rest) == goal
      modifies this
      ensures Valid() && safe == old(safe)
      ensures (ok <==> |b| <= old(room)) && (!ok ==> room == 0) && (ok ==> room == old(room) - |b|)
      ensures ok ==> Written() + rest == goal
      ensures old(Written()) <= Written() <= goal
    {
      var n := Min(|b|, room);
      var end := Max(pos + n, |content|);
      content := content[..pos] + b[..n] + content[Min(pos + n, |content|)..];
      assert content[..pos + n] == old(content[..pos]) + b[..n];
      pos, room, ok := pos + n, room - n, n == |b|;
      assert goal == old(Written()) + b[..n] + (b[n..] + rest) by { assert b == b[..n] + b[n..]; }
      if ok { assert b[n..] + rest == rest; }
    }

    method Write32(x: u32, ghost goal: seq<byte>, ghost rest: seq<byte>) returns (ok: bool)
      requires Valid() && Written() + P32(x, rest) == goal
      modifies this
      ensures Valid() && safe == old(safe)
      ensures old(Written()) <= Written() <= goal
      ensures ok ==> Written() + rest == goal
      ensures if ok then room == old(room) - 4 else room == 0 && old(room) < 4
    {
      ok := Write(LE32(x), goal, rest);
    }

    method Write64(x: u64, ghost goal: seq<byte>, ghost rest: seq<byte>) returns (ok: bool)
      requires Valid() && Written() + P64(x, rest) == goal
      modifies this
      ensures Valid() && safe == old(safe)
      ensures old(Written()) <= Written() <= goal
      ensures ok ==> Written() + rest == goal
      ensures if ok then room == old(room) - 8 else room == 0 && old(room) < 8
    {
      ok := Write(LE64(x), goal, rest);
    }

    method WriteArr32(b: seq<byte>, ghost goal: seq<byte>, ghost rest: seq<byte>) returns (ok: bool)
      requires Valid() && Written() + PArr32(b, rest) == goal
      modifies this
      ensures Valid() && safe == old(safe)
      ensures ok ==> Written() + rest == goal
      ensures if ok then room == old(room) - 4 - |b| else room == 0 && old(room) < 4 + |b|
    {
      ok := Write32(|b| % TWO32, goal, b + rest);
      if !ok || |b| == 0 { assert |b| == 0 ==> b + rest == rest; return; }
      ok := Write(b, goal, rest);
    }

    method WriteArr64(b: seq<byte>, ghost goal: seq<byte>, ghost rest: seq<byte>) returns (ok: bool)
      requires Valid() && Written() + PArr64(b, rest) == goal
      modifies this
      ensures Valid() && safe == old(safe)
      ensures old(Written()) <= Written() <= goal
      ensures ok ==> Written() + rest == goal
      ensures !ok ==> room == 0
    {
      ok := Write64(|b| % TWO64, goal, b + rest);
      if !ok || |b| == 0 { assert |b| == 0 ==> b + rest == rest; return; }
      ok := Write(b, goal, rest);
    }

    /** The first bytes of a record: handle, tag and number of items. */
    method WriteBoxInfo(handle: u32, tag: u32, number: u32, ghost goal: seq<byte>, ghost rest: seq<byte>) returns (ok: bool)
      requires Valid() && Written() + P32(handle, P32(tag, P32(number, rest))) == goal
      modifies this
      ensures Valid() && safe == old(safe)
      ensures old(Written()) <= Written() <= goal
      ensures ok ==> Written() + rest == goal
      ensures !ok ==> room == 0
    {
      ok := Write32(handle, goal, P32(tag, P32(number, rest)));
      if !ok { return; }
      ok := Write32(tag, goal, P32(number, rest));
      if !ok { return; }
      ok := Write32(number, goal, rest);
    }

    /** The commit: the eight bytes of the length are overwritten in place, all or none. */
    method Commit(tablesSize: u64, lands: bool) returns (ok: bool)
      requires Valid() && SIZE_AT + 8 <= pos
      modifies this
      ensures Valid() && pos == old(pos) && room == old(room) && ok == lands
      ensures ok ==> content == old(content[..SIZE_AT]) + LE64(tablesSize) + old(content[SIZE_AT + 8..]) && safe == content[..pos]
      ensures !ok ==> content == old(content) && safe == old(safe)
    {
      ok := lands;
      if ok {
        content := content[..SIZE_AT] + LE64(tablesSize) + content[SIZE_AT + 8..];
        safe := content[..pos];
      }
    }

    /** The header as it is first written, with the length still 0. */
    method WriteHeader(megabytes: u64, path: seq<byte>) returns (ok: bool)
      requires Valid() && pos == 0 && |path| < TWO32
      modifies this
      ensures Valid()
      ensures ok ==> Written() == safe == PHeader(0, megabytes, path, [])
      ensures ok <==> old(room) >= 32 + |path|
      ensures !ok ==> room == 0
    {
      hide LE32, LE64, P32, P64, PArr32;
      ghost var goal := PHeader(0, megabytes, path, []);
      ghost var uuid := P32(0, []);
      assert Written() + goal == goal;
      ok := Write32(MAGIC, goal, P32(VERSION, P64(0, P64(megabytes, PArr32(path, uuid)))));
      if !ok { return; }
      ok := Write32(VERSION, goal, P64(0, P64(megabytes, PArr32(path, uuid))));
      if !ok { return; }
      ok := Write64(0, goal, P64(megabytes, PArr32(path, uuid)));
      if !ok { return; }
      ok := Write64(megabytes, goal, PArr32(path, uuid));
      if !ok { return; }
      ok := WriteArr32(path, goal, uuid);
      if !ok { return; }
      ok := Write32(0, goal, []);
      if !ok { return; }
      assert Written() + [] == Written();
      safe := Written();
    }
  }
}
