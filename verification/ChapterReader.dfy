/**
 The chapters of a file: the track that holds them, which the demuxer finds by the
 references of the other tracks, and the text of its samples.
 */
module ChapterReader {
  import opened Bytes
  import opened Wrappers
  import opened BoxWalk
  import opened ConfigBytes
  import opened HeaderBoxes
  import opened MediaInput
  import opened Timescale

  // ---------- the track of the chapters ----------

  /** The first track with this number, from track `k` on. */
  function TrackById(ts: seq<TrackTables>, id: u32, k: nat): (r: Option<nat>)
    requires k <= |ts|
    ensures r.Some? ==> k <= r.value < |ts| && ts[r.value].id == id && forall i :: k <= i < r.value ==> ts[i].id != id
    ensures r.None? ==> forall i :: k <= i < |ts| ==> ts[i].id != id
    decreases |ts| - k
  {
    if k == |ts| then None else if ts[k].id == id then Some(k) else TrackById(ts, id, k + 1)
  }

  method FindById(ts: seq<TrackTables>, id: u32) returns (r: Option<nat>)
    ensures r == TrackById(ts, id, 0)
  {
    for k := 0 to |ts|
      invariant TrackById(ts, id, k) == TrackById(ts, id, 0)
    {
      if ts[k].id == id { return Some(k); }
    }
    return None;
  }

  /** The track of the chapters so far, and the text tracks that have been taken for one. */
  datatype Links = Links(chapters: Option<nat>, taken: set<nat>)

  /** A reference to a text track makes it the track of the chapters, the first time. */
  function LinkOne(ts: seq<TrackTables>, k: nat, id: u32, l: Links): Links
    requires k < |ts|
  {
    var j := TrackById(ts, id, 0);
    if j.Some? && ts[k].refKind == CHAP && ts[j.value].handler.TextHandler? && j.value !in l.taken then Links(j, l.taken + {j.value})
    else l
  }

  function LinkRefs(ts: seq<TrackTables>, k: nat, n: nat, l: Links): Links
    requires k < |ts| && n <= |ts[k].refs|
  {
    if n == 0 then l else LinkOne(ts, k, ts[k].refs[n - 1], LinkRefs(ts, k, n - 1, l))
  }

  function LinkAll(ts: seq<TrackTables>, n: nat): Links
    requires n <= |ts|
  {
    if n == 0 then Links(None, {}) else LinkRefs(ts, n - 1, |ts[n - 1].refs|, LinkAll(ts, n - 1))
  }

  /** What is taken for the track of the chapters is a text track. */
  predicate LinksText(ts: seq<TrackTables>, l: Links)
  {
    l.chapters.Some? ==> l.chapters.value < |ts| && ts[l.chapters.value].handler.TextHandler?
  }

  lemma {:induction false} LinkRefsText(ts: seq<TrackTables>, k: nat, n: nat, l: Links)
    requires k < |ts| && n <= |ts[k].refs| && LinksText(ts, l)
    ensures LinksText(ts, LinkRefs(ts, k, n, l))
  {
    if n > 0 { LinkRefsText(ts, k, n - 1, l); }
  }

  lemma {:induction false} LinkAllText(ts: seq<TrackTables>, n: nat)
    requires n <= |ts|
    ensures LinksText(ts, LinkAll(ts, n))
  {
    if n > 0 {
      LinkAllText(ts, n - 1);
      LinkRefsText(ts, n - 1, |ts[n - 1].refs|, LinkAll(ts, n - 1));
    }
  }

  function ChapterTrack(ts: seq<TrackTables>): (k: Option<nat>)
    ensures k.Some? ==> k.value < |ts| && ts[k.value].handler.TextHandler?
  {
    LinkAllText(ts, |ts|);
    LinkAll(ts, |ts|).chapters
  }

  method LinkTracks(ts: seq<TrackTables>) returns (k: Option<nat>)
    ensures k == ChapterTrack(ts)
  {
    k := None;
    var taken: set<nat> := {};
    for i := 0 to |ts|
      invariant Links(k, taken) == LinkAll(ts, i)
    {
      for n := 0 to |ts[i].refs|
        invariant Links(k, taken) == LinkRefs(ts, i, n, LinkAll(ts, i))
      {
        var j := FindById(ts, ts[i].refs[n]);
        if j.Some? && ts[i].refKind == CHAP && ts[j.value].handler.TextHandler? && j.value !in taken {
          k, taken := j, taken + {j.value};
        }
      }
    }
  }

  lemma {:induction false} NoLinks(ts: seq<TrackTables>, k: nat, n: nat, l: Links)
    requires k < |ts| && n <= |ts[k].refs| && ts[k].refKind != CHAP
    ensures LinkRefs(ts, k, n, l) == l
  {
    if n > 0 { NoLinks(ts, k, n - 1, l); }
  }

  lemma {:induction false} LinksUpTo(ts: seq<TrackTables>, k: nat, j: nat, n: nat)
    requires n <= |ts| && k < |ts| && j < |ts| && ts[j].handler.TextHandler? && ts[k].refKind == CHAP && ts[k].refs == [ts[j].id]
    requires forall i :: 0 <= i < |ts| && i != j ==> ts[i].id != ts[j].id
    requires forall i :: 0 <= i < |ts| && i != k ==> ts[i].refKind != CHAP
    ensures LinkAll(ts, n) == if n <= k then Links(None, {}) else Links(Some(j), {j})
  {
    if n > 0 {
      LinksUpTo(ts, k, j, n - 1);
      if n - 1 == k {
        assert LinkRefs(ts, k, 0, LinkAll(ts, k)) == LinkAll(ts, k);
        assert LinkRefs(ts, k, 1, LinkAll(ts, k)) == LinkOne(ts, k, ts[j].id, LinkAll(ts, k));
      } else {
        NoLinks(ts, n - 1, |ts[n - 1].refs|, LinkAll(ts, n - 1));
      }
    }
  }

  /** With one reference to chapters in the whole file, the text track it names is their track, whatever the order of the tracks. */
  lemma ChaptersLinked(ts: seq<TrackTables>, k: nat, j: nat)
    requires k < |ts| && j < |ts| && ts[j].handler.TextHandler? && ts[k].refKind == CHAP && ts[k].refs == [ts[j].id]
    requires forall i :: 0 <= i < |ts| && i != j ==> ts[i].id != ts[j].id
    requires forall i :: 0 <= i < |ts| && i != k ==> ts[i].refKind != CHAP
    ensures ChapterTrack(ts) == Some(j)
  {
    LinksUpTo(ts, k, j, |ts|);
  }

  // ---------- the chapters ----------

  datatype Chapter = Chapter(time: u64, name: seq<byte>)

  const MAX_CHAPTERS: nat := 100

  /** The samples of a track, and when they are to be shown. */
  datatype Source = Source(offsets: seq<u64>, sizes: seq<u32>, times: seq<u64>, timescale: u32)

  predicate Even(s: Source)
  {
    |s.offsets| == |s.sizes| == |s.times|
  }

  /** The length of the text is there. */
  predicate LengthThere(bytes: seq<byte>, offset: u64)
  {
    offset < TWO63 && offset + 2 <= |bytes|
  }

  function TextLength(bytes: seq<byte>, offset: u64): u16
    requires LengthThere(bytes, offset)
  {
    FromBE16(bytes[offset..offset + 2])
  }

  /** What is left of a sample after the length; less than nothing counts as very much. */
  function RoomFor(size: u32): u32
  {
    (size + TWO32 - 2) % TWO32
  }

  /** The sample says that its text is no longer than the sample. */
  predicate Announced(bytes: seq<byte>, offset: u64, size: u32)
  {
    LengthThere(bytes, offset) && TextLength(bytes, offset) <= RoomFor(size)
  }

  predicate TextThere(bytes: seq<byte>, offset: u64)
  {
    LengthThere(bytes, offset) && offset + 2 + TextLength(bytes, offset) <= |bytes|
  }

  function Text(bytes: seq<byte>, offset: u64): seq<byte>
    requires TextThere(bytes, offset)
  {
    bytes[offset + 2..offset + 2 + TextLength(bytes, offset)]
  }

  /** The chapters from sample `i` on, after those that have been got; none if a text is not there. */
  function ChaptersFrom(bytes: seq<byte>, s: Source, i: nat, got: seq<Chapter>): Option<seq<Chapter>>
    requires Even(s) && i <= |s.sizes|
    decreases |s.sizes| - i
  {
    if i == |s.sizes| then Some(got)
    else if !LengthThere(bytes, s.offsets[i]) then None
    else if !Announced(bytes, s.offsets[i], s.sizes[i]) then ChaptersFrom(bytes, s, i + 1, got)
    else if |got| >= MAX_CHAPTERS then Some(got)
    else if !TextThere(bytes, s.offsets[i]) then None
    else ChaptersFrom(bytes, s, i + 1, got + [Chapter(SampleTimeToUsec(s.times[i], s.timescale), Text(bytes, s.offsets[i]))])
  }

  /** The text of the samples, up to so many; a sample that cannot be read makes the demuxer refuse the file. */
  method ReadChapters(f: MediaFile, s: Source) returns (r: Option<seq<Chapter>>)
    requires Even(s)
    modifies f`pos
    ensures r == ChaptersFrom(f.bytes, s, 0, [])
  {
    hide FromBE16, SampleTimeToUsec, RoomFor;
    var got := [];
    for i := 0 to |s.sizes|
      invariant ChaptersFrom(f.bytes, s, i, got) == ChaptersFrom(f.bytes, s, 0, [])
    {
      if s.offsets[i] >= TWO63 { return None; }
      f.pos := s.offsets[i];
      var length := f.Read16();
      if length.None? { return None; }
      var n: nat := length.value;
      if n <= RoomFor(s.sizes[i]) {
        if |got| >= MAX_CHAPTERS { return Some(got); }
        var name := f.ReadBytes(n);
        if |name| < n { return None; }
        got := got + [Chapter(SampleTimeToUsec(s.times[i], s.timescale), name)];
      }
    }
    return Some(got);
  }

  /** How many of the first `i` samples are chapters. */
  function Chapters(bytes: seq<byte>, offsets: seq<u64>, sizes: seq<u32>, i: nat): nat
    requires |offsets| == |sizes| && i <= |sizes|
  {
    if i == 0 then 0 else Chapters(bytes, offsets, sizes, i - 1) + if Announced(bytes, offsets[i - 1], sizes[i - 1]) then 1 else 0
  }

  /** What can be read of sample `i` is there, unless there are too many chapters before it. */
  predicate SampleThere(bytes: seq<byte>, offsets: seq<u64>, sizes: seq<u32>, i: nat)
    requires |offsets| == |sizes| && i < |sizes|
  {
    var n := Chapters(bytes, offsets, sizes, i);
    && (n <= MAX_CHAPTERS ==> LengthThere(bytes, offsets[i]))
    && (n < MAX_CHAPTERS && Announced(bytes, offsets[i], sizes[i]) ==> TextThere(bytes, offsets[i]))
  }

  predicate SamplesThere(bytes: seq<byte>, offsets: seq<u64>, sizes: seq<u32>)
    requires |offsets| == |sizes|
  {
    forall i :: 0 <= i < |sizes| ==> SampleThere(bytes, offsets, sizes, i)
  }

  lemma {:induction false} ChaptersGrow(bytes: seq<byte>, offsets: seq<u64>, sizes: seq<u32>, i: nat, j: nat)
    requires |offsets| == |sizes| && i <= j <= |sizes|
    ensures Chapters(bytes, offsets, sizes, i) <= Chapters(bytes, offsets, sizes, j)
    decreases j - i
  {
    hide Announced;
    if i < j { ChaptersGrow(bytes, offsets, sizes, i, j - 1); }
  }

  lemma {:induction false} ReadFrom(bytes: seq<byte>, s: Source, i: nat, got: seq<Chapter>)
    requires Even(s) && i <= |s.sizes| && |got| == Chapters(bytes, s.offsets, s.sizes, i) <= MAX_CHAPTERS
    ensures ChaptersFrom(bytes, s, i, got).Some? <==> forall k :: i <= k < |s.sizes| ==> SampleThere(bytes, s.offsets, s.sizes, k)
    decreases |s.sizes| - i
  {
    hide LengthThere, Announced, TextThere, Text, SampleTimeToUsec;
    AnnouncedLength(bytes, s);
    if i < |s.sizes| {
      var here := Announced(bytes, s.offsets[i], s.sizes[i]);
      assert Chapters(bytes, s.offsets, s.sizes, i + 1) == |got| + if here then 1 else 0;
      if LengthThere(bytes, s.offsets[i]) {
        if !here {
          ReadFrom(bytes, s, i + 1, got);
        } else if |got| >= MAX_CHAPTERS {
          forall k | i <= k < |s.sizes| ensures SampleThere(bytes, s.offsets, s.sizes, k) {
            if k > i { ChaptersGrow(bytes, s.offsets, s.sizes, i + 1, k); }
          }
        } else if TextThere(bytes, s.offsets[i]) {
          ReadFrom(bytes, s, i + 1, got + [Chapter(SampleTimeToUsec(s.times[i], s.timescale), Text(bytes, s.offsets[i]))]);
        } else {
          assert !SampleThere(bytes, s.offsets, s.sizes, i);
        }
      } else {
        assert !SampleThere(bytes, s.offsets, s.sizes, i);
      }
    }
  }

  lemma AnnouncedLength(bytes: seq<byte>, s: Source)
    requires Even(s)
    ensures forall i :: 0 <= i < |s.sizes| && Announced(bytes, s.offsets[i], s.sizes[i]) ==> LengthThere(bytes, s.offsets[i])
  {
  }

  /** The chapters can be read exactly when every sample up to the hundredth chapter has what it announces in the file. */
  lemma ChaptersReadable(bytes: seq<byte>, s: Source)
    requires Even(s)
    ensures ChaptersFrom(bytes, s, 0, []).Some? <==> SamplesThere(bytes, s.offsets, s.sizes)
  {
    ReadFrom(bytes, s, 0, []);
  }

  /** Samples that are in the file, with the bytes that were recorded for them. */
  predicate InFile(bytes: seq<byte>, s: Source, payloads: seq<seq<byte>>)
  {
    && Even(s) && |payloads| == |s.sizes| && |bytes| < TWO63
    && forall i :: 0 <= i < |s.sizes| ==>
         && |payloads[i]| == s.sizes[i] && s.offsets[i] + s.sizes[i] <= |bytes|
         && bytes[s.offsets[i]..s.offsets[i] + s.sizes[i]] == payloads[i]
  }

  /** Every sample has room for its length. */
  predicate LongEnough(payloads: seq<seq<byte>>)
  {
    forall i :: 0 <= i < |payloads| ==> |payloads[i]| >= 2
  }

  /** The chapters among these samples: those whose text is no longer than they are. */
  function ChaptersAmong(payloads: seq<seq<byte>>, times: seq<u64>, timescale: u32, i: nat, got: seq<Chapter>): seq<Chapter>
    requires |times| == |payloads| && i <= |payloads| && LongEnough(payloads)
    decreases |payloads| - i
  {
    if i == |payloads| then got
    else
      var p := payloads[i];
      var n: nat := FromBE16(p[..2]);
      if 2 + n > |p| then ChaptersAmong(payloads, times, timescale, i + 1, got)
      else if |got| >= MAX_CHAPTERS then got
      else ChaptersAmong(payloads, times, timescale, i + 1, got + [Chapter(SampleTimeToUsec(times[i], timescale), p[2..2 + n])])
  }

  lemma PayloadText(bytes: seq<byte>, s: Source, payloads: seq<seq<byte>>, i: nat)
    requires InFile(bytes, s, payloads) && LongEnough(payloads) && i < |payloads|
    ensures LengthThere(bytes, s.offsets[i]) && TextLength(bytes, s.offsets[i]) == FromBE16(payloads[i][..2])
    ensures var n: nat := FromBE16(payloads[i][..2]);
            && (Announced(bytes, s.offsets[i], s.sizes[i]) <==> 2 + n <= |payloads[i]|)
            && (2 + n <= |payloads[i]| ==> TextThere(bytes, s.offsets[i]) && Text(bytes, s.offsets[i]) == payloads[i][2..2 + n])
  {
    hide FromBE16;
    var at, p := s.offsets[i], payloads[i];
    assert bytes[at..at + 2] == p[..2];
    var n: nat := FromBE16(p[..2]);
    if 2 + n <= |p| { assert bytes[at + 2..at + 2 + n] == p[2..2 + n]; }
  }

  lemma {:induction false} AmongFrom(bytes: seq<byte>, s: Source, payloads: seq<seq<byte>>, i: nat, got: seq<Chapter>)
    requires InFile(bytes, s, payloads) && LongEnough(payloads) && i <= |payloads|
    ensures ChaptersFrom(bytes, s, i, got) == Some(ChaptersAmong(payloads, s.times, s.timescale, i, got))
    decreases |payloads| - i
  {
    hide LengthThere, Announced, TextThere, Text, SampleTimeToUsec, FromBE16, InFile;
    SameNumber(bytes, s, payloads);
    if i < |payloads| {
      PayloadText(bytes, s, payloads, i);
      var p := payloads[i];
      var n: nat := FromBE16(p[..2]);
      if 2 + n > |p| {
        AmongFrom(bytes, s, payloads, i + 1, got);
      } else if |got| < MAX_CHAPTERS {
        AmongFrom(bytes, s, payloads, i + 1, got + [Chapter(SampleTimeToUsec(s.times[i], s.timescale), p[2..2 + n])]);
      }
    }
  }

  lemma SameNumber(bytes: seq<byte>, s: Source, payloads: seq<seq<byte>>)
    requires InFile(bytes, s, payloads)
    ensures Even(s) && |payloads| == |s.sizes|
  {
  }

  /** When every sample has at least two bytes, the chapters are read, and they are those that were recorded. */
  lemma ChaptersRecorded(bytes: seq<byte>, s: Source, payloads: seq<seq<byte>>)
    requires InFile(bytes, s, payloads) && LongEnough(payloads)
    ensures SamplesThere(bytes, s.offsets, s.sizes)
    ensures ChaptersFrom(bytes, s, 0, []) == Some(ChaptersAmong(payloads, s.times, s.timescale, 0, []))
  {
    AmongFrom(bytes, s, payloads, 0, []);
    ChaptersReadable(bytes, s);
  }

  /** A sample of one byte at the end of a file: its length is not there, and the demuxer refuses the file. */
  lemma ShortChapterRefused(bytes: seq<byte>, time: u64, timescale: u32)
    requires 0 < |bytes| < TWO63
    ensures ChaptersFrom(bytes, Source([|bytes| - 1], [1], [time], timescale), 0, []).None?
  {
  }
}
