/**
 Where the bytes of the recorded samples are in the media file, and which writes
 leave them alone.
 */
module DataSafety {
  import opened Bytes
  import opened JournalFormat
  import opened MuxFile

  /** The bytes of every sample are in the file, between two positions. */
  ghost predicate Stored(c: seq<byte>, samples: seq<Sample>, payloads: seq<seq<byte>>, lo: nat, hi: nat)
  {
    && |payloads| == |samples| && hi <= |c|
    && forall i {:trigger samples[i]} :: 0 <= i < |samples| ==> StoredAt(c, samples[i], payloads[i], lo, hi)
  }

  ghost predicate StoredAt(c: seq<byte>, x: Sample, payload: seq<byte>, lo: nat, hi: nat)
  {
    && lo <= x.offset && x.offset + x.size <= hi <= |c|
    && c[x.offset..x.offset + x.size] == payload
  }

  predicate Disjoint(x: Sample, y: Sample)
  {
    x.offset + x.size <= y.offset || y.offset + y.size <= x.offset
  }

  /** No sample of one list overlaps one of the other. */
  predicate Apart(a: seq<Sample>, b: seq<Sample>)
  {
    forall i, j :: 0 <= i < |a| && 0 <= j < |b| ==> Disjoint(a[i], b[j])
  }

  /** Each sample lies after the one before it. */
  predicate Growing(a: seq<Sample>)
  {
    forall i, j :: 0 <= i < j < |a| ==> a[i].offset + a[i].size <= a[j].offset
  }

  /** Writing outside of the range keeps every sample. */
  lemma StoredFrame(c: seq<byte>, d: seq<byte>, samples: seq<Sample>, payloads: seq<seq<byte>>, lo: nat, hi: nat, from: int, to: int)
    requires Stored(c, samples, payloads, lo, hi)
    requires KeptOutside(c, d, from, to) && (to <= lo || hi <= from)
    ensures Stored(d, samples, payloads, lo, hi)
  {
    hide KeptOutside;
    forall i | 0 <= i < |samples| ensures StoredAt(d, samples[i], payloads[i], lo, hi) {
      SliceKept(c, d, from, to, samples[i].offset, samples[i].offset + samples[i].size);
      KeptLength(c, d, from, to);
    }
    KeptLength(c, d, from, to);
  }

  lemma KeptLength(c: seq<byte>, d: seq<byte>, from: int, to: int)
    requires KeptOutside(c, d, from, to)
    ensures |c| <= |d|
  {
  }

  lemma StoredMore(c: seq<byte>, samples: seq<Sample>, payloads: seq<seq<byte>>, lo: nat, hi: nat, hi': nat)
    requires Stored(c, samples, payloads, lo, hi) && hi <= hi' <= |c|
    ensures Stored(c, samples, payloads, lo, hi')
  {
    forall i | 0 <= i < |samples| ensures StoredAt(c, samples[i], payloads[i], lo, hi') {
      assert StoredAt(c, samples[i], payloads[i], lo, hi);
    }
  }

  /** One more sample, at the old upper bound. */
  lemma StoredAppend(c: seq<byte>, samples: seq<Sample>, payloads: seq<seq<byte>>, lo: nat, hi: nat, x: Sample, payload: seq<byte>, hi': nat)
    requires Stored(c, samples, payloads, lo, hi) && Growing(samples)
    requires lo <= hi == x.offset && x.offset + x.size <= hi' <= |c| && c[x.offset..x.offset + x.size] == payload
    ensures Stored(c, samples + [x], payloads + [payload], lo, hi') && Growing(samples + [x])
  {
    forall i | 0 <= i < |samples| ensures StoredAt(c, samples[i], payloads[i], lo, hi') {
      assert StoredAt(c, samples[i], payloads[i], lo, hi);
    }
  }

  lemma ApartAppend(c: seq<byte>, a: seq<Sample>, b: seq<Sample>, pb: seq<seq<byte>>, lo: nat, hi: nat, x: Sample)
    requires Apart(a, b) && Stored(c, b, pb, lo, hi) && hi <= x.offset
    ensures Apart(a + [x], b)
  {
    forall i, j | 0 <= i < |a| + 1 && 0 <= j < |b| ensures Disjoint((a + [x])[i], b[j]) {
      assert StoredAt(c, b[j], pb[j], lo, hi);
    }
  }

  lemma ApartSymmetric(a: seq<Sample>, b: seq<Sample>)
    requires Apart(a, b)
    ensures Apart(b, a)
  {
  }
}
