/**
 The metadata of a file and of its tracks as the demuxer keeps it, and the readers of
 the boxes it comes in.
 */
module TextReader {
  import opened Bytes
  import opened Wrappers
  import opened MediaInput
  import opened HeaderBoxes
  import opened HeaderReader

  /** Keys, and the values that have been found for them. */
  datatype Texts = Texts(keys: seq<seq<byte>>, values: seq<Option<seq<byte>>>)

  const NO_TEXTS := Texts([], [])

  function Blank(keys: seq<seq<byte>>): Texts
  {
    Texts(keys, seq(|keys|, _ => None))
  }

  /** The value of the key with this number, counted from 1. */
  function Filled(t: Texts, number: nat, value: seq<byte>): Texts
  {
    if 1 <= number <= |t.values| then t.(values := t.values[number - 1 := Some(value)]) else t
  }

  /**
     The metadata of the file: keys and values, values under four-byte tags, the
     location, and a cover with its format, under a tag or under a key.
  */
  datatype Notes = Notes(texts: Texts, tags: seq<(u32, seq<byte>)>, location: Option<seq<byte>>,
                         cover: Option<(u32, seq<byte>)>, artwork: Option<(u32, seq<byte>)>)

  const NO_NOTES := Notes(NO_TEXTS, [], None, None, None)

  const UTF8: u32 := 1
  const COVR: u32 := 0x636f7672

  predicate IsPicture(format: u32)
  {
    format == 13 || format == 14 || format == 27
  }

  /** The tags that the demuxer knows, whatever their first byte is. */
  const TAG_CODES: set<int> := {0x415254, 0x6e616d, 0x646179, 0x636d74, 0x637079, 0x6d616b, 0x6d6f64, 0x737772, 0x746f6f}

  predicate IsTag(kind: u32)
  {
    kind % 0x100_0000 in TAG_CODES
  }

  /** More keys than this are refused. */
  const MAX_KEYS: nat := 10000000

  /** The list of keys. On any bytes, a success consumes the box; on a written box it gives the keys back. */
  method ReadKeys(f: MediaFile, max: nat, ghost good: bool, ghost keys: seq<seq<byte>>) returns (r: LeafResult<seq<seq<byte>>>)
    requires good ==> f.Next(HeaderContent(Keys(keys))) && max == |HeaderContent(Keys(keys))| < TWO32
    modifies f`pos
    ensures f.pos >= old(f.pos) && (r.Leaf? ==> f.pos == old(f.pos) + max)
    ensures good ==> r == if |keys| > MAX_KEYS then LeafBad(Eproto) else Leaf(keys)
  {
    hide WordBytes, KeyBytes, BE32, HeaderContent;
    var start := f.pos;
    ghost var number := |keys| % TWO32;
    if good { KeysContent(keys); }
    if max < 8 { return LeafBad(Einval); }
    var w := TakeWords(f, 2, good, [0, number], KeyBytes(keys));
    if w.None? { return LeafBad(Eio); }
    var count := w.value[1];
    if count > MAX_KEYS { return LeafBad(Eproto); }
    if max < 4 + 8 * count { return LeafBad(Einval); }
    var got: seq<seq<byte>>, read: nat := [], 8;
    assert keys[0..] == keys;
    for i := 0 to count
      invariant |got| == i && read <= max && f.pos == start + read
      invariant good ==> got == keys[..i] && f.Next(KeyBytes(keys[i..])) && read + |KeyBytes(keys[i..])| == max
    {
      ghost var key, rest := [], [];
      if good {
        NextKey(keys, i);
        key, rest := keys[i], KeyBytes(keys[i + 1..]);
      }
      var x := ReadKey(f, max - read, good, key, rest);
      if x.LeafBad? { return LeafBad(x.error); }
      got, read := got + [x.value], read + 8 + |x.value|;
    }
    SkipTo(f, start + max);
    if good { assert keys[..count] == keys; }
    return Leaf(got);
  }

  lemma KeysContent(keys: seq<seq<byte>>)
    ensures HeaderContent(Keys(keys)) == WordBytes([0, |keys| % TWO32]) + KeyBytes(keys)
    ensures |HeaderContent(Keys(keys))| == 8 + |KeyBytes(keys)| && |keys| <= |KeyBytes(keys)|
  {
    hide WordBytes, KeyBytes;
  }

  lemma NextKey(keys: seq<seq<byte>>, i: nat)
    requires i < |keys|
    ensures KeyBytes(keys[i..]) == BE32((8 + |keys[i]|) % TWO32) + (BE32(MDTA) + (keys[i] + KeyBytes(keys[i + 1..])))
    ensures keys[..i + 1] == keys[..i] + [keys[i]]
  {
    hide BE32;
    assert keys[i..][1..] == keys[i + 1..];
  }

  /** One key: size, namespace, and the key if the rest of the box, `left`, has all of it. */
  method ReadKey(f: MediaFile, left: nat, ghost good: bool, ghost key: seq<byte>, ghost rest: seq<byte>) returns (r: LeafResult<seq<byte>>)
    requires good ==> f.Next(BE32((8 + |key|) % TWO32) + (BE32(MDTA) + (key + rest))) && 8 + |key| <= left < TWO32
    modifies f`pos
    ensures f.pos >= old(f.pos) && (r.Leaf? ==> f.pos == old(f.pos) + 8 + |r.value| && 8 + |r.value| <= left)
    ensures good ==> r == Leaf(key) && f.Next(rest)
  {
    hide BE32;
    var size := Take32(f, good, (8 + |key|) % TWO32, BE32(MDTA) + (key + rest));
    if size.None? { return LeafBad(Eio); }
    if size.value < 8 { return LeafBad(Eproto); }
    var space := Take32(f, good, MDTA, key + rest);
    if space.None? { return LeafBad(Eio); }
    if left - 8 < size.value - 8 { return LeafBad(Einval); }
    var b := TakeBytes(f, size.value - 8, good, key, rest);
    if |b| < size.value - 8 { return LeafBad(Enodata); }
    return Leaf(b);
  }

  /** A location: its length, its language, and its text. */
  method ReadLocation(f: MediaFile, max: nat, ghost good: bool, ghost value: seq<byte>) returns (r: LeafResult<seq<byte>>)
    requires good ==> f.Next(HeaderContent(Location(value))) && max == |HeaderContent(Location(value))| && |value| < 0x1_0000
    modifies f`pos
    ensures f.pos >= old(f.pos) && (r.Leaf? ==> f.pos == old(f.pos) + max)
    ensures good ==> r == Leaf(value)
  {
    hide BE16, HeaderContent;
    var start := f.pos;
    ghost var length := |value| % 0x1_0000;
    if good { LocationContent(value); }
    if max < 4 { return LeafBad(Einval); }
    var size := Take16(f, good, length, BE16(LANGUAGE) + value);
    if size.None? { return LeafBad(Eio); }
    var language := Take16(f, good, LANGUAGE, value);
    if language.None? { return LeafBad(Eio); }
    var n: nat := size.value;
    if max < 4 + n { return LeafBad(Einval); }
    assert value + [] == value;
    var b := TakeBytes(f, n, good, value, []);
    if |b| < n { return LeafBad(Enodata); }
    SkipTo(f, start + max);
    return Leaf(b);
  }

  lemma LocationContent(value: seq<byte>)
    requires |value| < 0x1_0000
    ensures HeaderContent(Location(value)) == BE16(|value| % 0x1_0000) + (BE16(LANGUAGE) + value)
    ensures |HeaderContent(Location(value))| == 4 + |value|
  {
    hide BE16, FromBE16;
    var hi: int, lo: int := |value|, LANGUAGE;
    var x: u32 := hi * 0x1_0000 + lo;
    OneWord(x);
    assert (hi * 0x1_0000 + lo) / 0x1_0000 == hi && (hi * 0x1_0000 + lo) % 0x1_0000 == lo;
    assert BE32(x) == BE16(|value| % 0x1_0000) + BE16(LANGUAGE);
  }

  lemma OneWord(x: u32)
    ensures WordBytes([x]) == BE32(x)
  {
    hide BE32;
    assert [x][..0] == [] && WordBytes([]) == [];
  }

  /** What a value starts with; there has to be something after it. */
  method ReadFormat(f: MediaFile, max: nat, ghost good: bool, ghost format: u32, ghost value: seq<byte>) returns (r: LeafResult<u32>)
    requires good ==> f.Next(HeaderContent(Data(format, value))) && max == |HeaderContent(Data(format, value))|
    modifies f`pos
    ensures f.pos >= old(f.pos) && (r.Leaf? ==> f.pos == old(f.pos) + 8 && max > 8)
    ensures good ==> max == 8 + |value|
    ensures good ==> r == (if value == [] then LeafBad(Einval) else Leaf(format % 0x100)) && (r.Leaf? ==> f.Next(value))
  {
    hide WordBytes;
    if max < 9 { return LeafBad(Einval); }
    var w := TakeWords(f, 2, good, [format, 0], value);
    if w.None? { return LeafBad(Eio); }
    return Leaf(w.value[0] % 0x100);
  }

  /** All of a value, or none. */
  method ReadValue(f: MediaFile, n: nat, ghost good: bool, ghost value: seq<byte>) returns (r: LeafResult<seq<byte>>)
    requires good ==> f.Next(value) && n == |value|
    modifies f`pos
    ensures f.pos >= old(f.pos) && (r.Leaf? ==> f.pos == old(f.pos) + n && |r.value| == n)
    ensures good ==> r == Leaf(value)
  {
    assert value + [] == value;
    var b := TakeBytes(f, n, good, value, []);
    r := if |b| < n then LeafBad(Enodata) else Leaf(b);
  }

  // ---------- what a value is kept as ----------

  /** The key of a cover among the keys of the file. */
  const ARTWORK: seq<byte> := Characters("com.apple.quicktime.artwork")

  /** A string ends with its first zero. */
  function CString(b: seq<byte>): (s: seq<byte>)
    ensures s <= b && 0 !in s && (s == b || b[|s|] == 0)
  {
    if b == [] || b[0] == 0 then [] else [b[0]] + CString(b[1..])
  }

  /** A text under a tag goes to the tags of the file, and under a number to the key with that number. */
  predicate KeptText(format: u32, parent: u32, texts: Texts)
  {
    format == UTF8 && (IsTag(parent) || 1 <= parent <= |texts.values|)
  }

  /** The metadata of the file after a picture, which tracks do not have. */
  function WithPicture(n: Notes, format: u32, parent: u32, data: seq<byte>): Notes
  {
    if parent == COVR then n.(cover := Some((format, data)))
    else if 1 <= parent <= |n.texts.keys| && CString(n.texts.keys[parent - 1]) == ARTWORK then n.(artwork := Some((format, data)))
    else n
  }
}
