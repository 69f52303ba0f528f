/**
 Fixed-width integers and the two byte orders of the formats: big endian for the
 boxes of the media file, little endian for the recovery journal, which the
 muxer writes in the byte order of its host.
 */
module Bytes {

  type byte = x: int | 0 <= x < 0x100
  type u16 = x: int | 0 <= x < 0x1_0000
  type u32 = x: int | 0 <= x < 0x1_0000_0000
  type u64 = x: int | 0 <= x < 0x1_0000_0000_0000_0000

  const U32_MAX: u32 := 0xFFFF_FFFF
  const TWO32: int := 0x1_0000_0000
  const TWO63: int := 0x8000_0000_0000_0000
  const TWO64: int := 0x1_0000_0000_0000_0000

  function Min(a: int, b: int): int { if a <= b then a else b }

  function Max(a: int, b: int): int { if a >= b then a else b }

  function BE16(x: u16): (b: seq<byte>)
    ensures |b| == 2 && FromBE16(b) == x
  {
    [x / 0x100, x % 0x100]
  }

  function FromBE16(b: seq<byte>): u16
    requires |b| == 2
  {
    var hi: int := b[0];
    hi * 0x100 + b[1]
  }

  function BE32(x: u32): (b: seq<byte>)
    ensures |b| == 4 && FromBE32(b) == x
  {
    BE16(x / 0x1_0000) + BE16(x % 0x1_0000)
  }

  function FromBE32(b: seq<byte>): u32
    requires |b| == 4
  {
    var hi: int := FromBE16(b[..2]);
    hi * 0x1_0000 + FromBE16(b[2..])
  }

  lemma BE16Inverse(b: seq<byte>)
    requires |b| == 2
    ensures BE16(FromBE16(b)) == b
  {
    var hi: int, lo: int := b[0], b[1];
    assert (hi * 0x100 + lo) / 0x100 == hi && (hi * 0x100 + lo) % 0x100 == lo;
  }

  /** The encoding is onto: any four bytes are the encoding of their value. */
  lemma BE32Inverse(b: seq<byte>)
    requires |b| == 4
    ensures BE32(FromBE32(b)) == b
  {
    hide BE16, FromBE16;
    var hi: int, lo: int := FromBE16(b[..2]), FromBE16(b[2..]);
    assert FromBE32(b) / 0x1_0000 == hi && FromBE32(b) % 0x1_0000 == lo;
    BE16Inverse(b[..2]);
    BE16Inverse(b[2..]);
    assert b == b[..2] + b[2..];
  }

  function BE64(x: u64): (b: seq<byte>)
    ensures |b| == 8 && FromBE64(b) == x
  {
    BE32(x / 0x1_0000_0000) + BE32(x % 0x1_0000_0000)
  }

  function FromBE64(b: seq<byte>): u64
    requires |b| == 8
  {
    var hi: int := FromBE32(b[..4]);
    hi * 0x1_0000_0000 + FromBE32(b[4..])
  }

  function LE16(x: u16): (b: seq<byte>)
    ensures |b| == 2 && FromLE16(b) == x
  {
    [x % 0x100, x / 0x100]
  }

  function FromLE16(b: seq<byte>): u16
    requires |b| == 2
  {
    var hi: int := b[1];
    hi * 0x100 + b[0]
  }

  function LE32(x: u32): (b: seq<byte>)
    ensures |b| == 4 && FromLE32(b) == x
  {
    LE16(x % 0x1_0000) + LE16(x / 0x1_0000)
  }

  function FromLE32(b: seq<byte>): u32
    requires |b| == 4
  {
    var hi: int := FromLE16(b[2..]);
    hi * 0x1_0000 + FromLE16(b[..2])
  }

  function LE64(x: u64): (b: seq<byte>)
    ensures |b| == 8 && FromLE64(b) == x
  {
    LE32(x % 0x1_0000_0000) + LE32(x / 0x1_0000_0000)
  }

  function FromLE64(b: seq<byte>): u64
    requires |b| == 8
  {
    var hi: int := FromLE32(b[4..]);
    hi * 0x1_0000_0000 + FromLE32(b[..4])
  }

  // ---------- big-endian words ----------

  function WordBytes(w: seq<u32>): (b: seq<byte>)
    ensures |b| == 4 * |w|
  {
    if w == [] then [] else WordBytes(w[..|w| - 1]) + BE32(w[|w| - 1])
  }

  lemma {:induction false} WordBytesAppend(v: seq<u32>, w: seq<u32>)
    ensures WordBytes(v + w) == WordBytes(v) + WordBytes(w)
  {
    if w == [] {
      assert v + w == v;
    } else {
      var init := w[..|w| - 1];
      assert (v + w)[..|v + w| - 1] == v + init;
      WordBytesAppend(v, init);
    }
  }

  lemma {:induction false} WordAt(w: seq<u32>, i: nat)
    requires i < |w|
    ensures WordBytes(w)[4 * i..4 * i + 4] == BE32(w[i])
  {
    hide BE32;
    var init := w[..|w| - 1];
    if i + 1 < |w| {
      WordAt(init, i);
      assert WordBytes(w)[4 * i..4 * i + 4] == WordBytes(init)[4 * i..4 * i + 4];
    } else {
      assert WordBytes(w)[4 * i..4 * i + 4] == BE32(w[i]);
    }
  }

  lemma WordBytesInjective(v: seq<u32>, w: seq<u32>)
    requires |v| == |w| && WordBytes(v) == WordBytes(w)
    ensures v == w
  {
    hide WordBytes, BE32;
    forall i | 0 <= i < |v| ensures v[i] == w[i] {
      WordAt(v, i);
      WordAt(w, i);
    }
  }
}
