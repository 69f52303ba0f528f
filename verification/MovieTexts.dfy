/**
 The boxes of metadata that the muxer adds to the movie and to its tracks, and what
 they tell the demuxer: the keys and the values that were set.
 */
module MovieTexts {
  import opened Bytes
  import opened Wrappers
  import opened BoxTree
  import opened BoxWalk
  import opened BoxLemmas
  import opened ConfigBytes
  import opened HeaderBoxes
  import opened TextReader
  import M = Metadata
  import R = JournalReplay

  type CoverArt = Option<(u32, seq<byte>)>

  const NO_COVER: CoverArt := None

  /** Where the metadata goes, by the form of its key. */
  const IN_META: u32 := 0
  const IN_UDTA: u32 := 1
  const IN_ROOT: u32 := 2

  /** The metadata of one kind, in order; a string too long for its bound counts as empty. */
  function Kept(ms: seq<M.Meta>, storage: u32): seq<M.Meta>
  {
    if ms == [] then []
    else (if R.Storage(ms[0].key) == storage then [R.ClipMeta(ms[0])] else []) + Kept(ms[1..], storage)
  }

  function KeysOf(ms: seq<M.Meta>): (keys: seq<seq<byte>>)
    ensures |keys| == |ms|
  {
    seq(|ms|, i requires 0 <= i < |ms| => ms[i].key)
  }

  function ValuesOf(ms: seq<M.Meta>): (values: seq<Option<seq<byte>>>)
    ensures |values| == |ms|
  {
    seq(|ms|, i requires 0 <= i < |ms| => Some(ms[i].value))
  }

  /** A four-byte key is the type of its entry. */
  function TagOf(key: M.Key): u32
  {
    if |key| == 4 then FromBE32(key) else 0
  }

  /** An entry of a list holds one value. */
  function EntryBox(kind: u32, format: u32, value: seq<byte>): Box
  {
    Container(kind, [Header(Data(format, value))])
  }

  /** Entries that are the numbers of the keys, which start at 1. */
  function Numbered(ms: seq<M.Meta>, n: nat): seq<Box>
  {
    if ms == [] then [] else [EntryBox((n + 1) % TWO32, UTF8, ms[0].value)] + Numbered(ms[1..], n + 1)
  }

  /** Entries under their own tags. */
  function Tagged(ms: seq<M.Meta>): seq<Box>
  {
    if ms == [] then [] else [EntryBox(TagOf(ms[0].key), UTF8, ms[0].value)] + Tagged(ms[1..])
  }

  function CoverFormat(kind: u32): u32
  {
    if kind == 1 then 13 else if kind == 2 then 14 else if kind == 3 then 27 else 0
  }

  function CoverBoxes(c: CoverArt): seq<Box>
  {
    if c.None? || c.value.0 == 0 || c.value.1 == [] then [] else [EntryBox(COVR, CoverFormat(c.value.0), c.value.1)]
  }

  function LocationBoxes(ms: seq<M.Meta>): seq<Box>
  {
    if ms == [] then [] else [Header(Location(ms[0].value))] + LocationBoxes(ms[1..])
  }

  function KeyedBox(ms: seq<M.Meta>): Box
  {
    Container(META, [Header(MetaHdlr(false))] + ([Header(Keys(KeysOf(ms)))] + [Container(ILST, Numbered(ms, 0))]))
  }

  function TaggedBox(ms: seq<M.Meta>, c: CoverArt): Box
  {
    Full(META, [Header(MetaHdlr(true))] + [Container(ILST, Tagged(ms) + CoverBoxes(c))])
  }

  function TaggedBoxes(ms: seq<M.Meta>, c: CoverArt): seq<Box>
  {
    if ms == [] then [] else [TaggedBox(ms, c)]
  }

  function UdtaBox(tags: seq<M.Meta>, places: seq<M.Meta>, c: CoverArt): Box
  {
    Container(UDTA, TaggedBoxes(tags, c) + LocationBoxes(places))
  }

  function KeyedBoxes(ms: seq<M.Meta>): seq<Box>
  {
    if ms == [] then [] else [KeyedBox(ms)]
  }

  function UdtaBoxes(tags: seq<M.Meta>, places: seq<M.Meta>, c: CoverArt): seq<Box>
  {
    if tags == [] && places == [] then [] else [UdtaBox(tags, places, c)]
  }

  /** What is added to the movie or to a track; the cover has its place among the tags, if there are any. */
  function MetaBoxes(ms: seq<M.Meta>, c: CoverArt): seq<Box>
  {
    KeyedBoxes(Kept(ms, IN_META)) + UdtaBoxes(Kept(ms, IN_UDTA), Kept(ms, IN_ROOT), c)
  }

  // ---------- what these boxes tell ----------

  predicate NonEmpty(ms: seq<M.Meta>)
  {
    forall i :: 0 <= i < |ms| ==> ms[i].value != []
  }

  lemma NonEmptyNext(ms: seq<M.Meta>)
    ensures NonEmpty(ms) <==> ms == [] || (ms[0].value != [] && NonEmpty(ms[1..]))
  {
    assert forall i :: 0 < i < |ms| ==> ms[i] == ms[1..][i - 1];
  }

  /** No value is empty, or so long that it counts as empty; a location may be. */
  predicate Valued(ms: seq<M.Meta>)
  {
    forall i :: 0 <= i < |ms| && R.Storage(ms[i].key) != IN_ROOT ==> 0 < |ms[i].value| < M.VALUE_MAX
  }

  /** The number of an entry is no type. */
  const NUMBERS: nat := 0x41_5254

  /** The entries of a list mean nothing else: few keys, and no key with the type of another box. */
  predicate PlainMetas(ms: seq<M.Meta>)
  {
    |ms| < NUMBERS && forall i :: 0 <= i < |ms| && R.Storage(ms[i].key) == IN_UDTA ==> PlainTag(TagOf(ms[i].key))
  }

  predicate PlainTag(tag: u32)
  {
    NUMBERS < tag && Plain(tag)
  }

  /** Keys and values as they were set. */
  function TextsOf(ms: seq<M.Meta>): Texts
  {
    Texts(KeysOf(Kept(ms, IN_META)), ValuesOf(Kept(ms, IN_META)))
  }

  /** Of the four-byte tags, the demuxer keeps those it knows. */
  function TagsOf(ms: seq<M.Meta>): seq<(u32, seq<byte>)>
  {
    if ms == [] then [] else (if IsTag(TagOf(ms[0].key)) then [(TagOf(ms[0].key), ms[0].value)] else []) + TagsOf(ms[1..])
  }

  function Located(ms: seq<M.Meta>, n: Notes): Notes
  {
    if ms == [] then n else Located(ms[1..], n.(location := Some(ms[0].value)))
  }

  function Covered(c: CoverArt, n: Notes): Notes
  {
    if CoverBoxes(c) == [] || CoverFormat(c.value.0) == 0 then n else n.(cover := Some((CoverFormat(c.value.0), c.value.1)))
  }

  /** The tags, with the cover, replace what the demuxer has, and so does the location. */
  function Noted(ms: seq<M.Meta>, c: CoverArt, n: Notes): Notes
  {
    var tags := Kept(ms, IN_UDTA);
    Located(Kept(ms, IN_ROOT), if tags == [] then n else Covered(c, n.(tags := TagsOf(tags))))
  }

  function WithNotes(v: Found, n: Notes): Found
  {
    v.(notes := n)
  }

  function Annotated(v: Found, cur: Option<nat>, ms: seq<M.Meta>, c: CoverArt): Found
  {
    var w := WithTexts(v, cur, TextsOf(ms));
    WithNotes(w, Noted(ms, c, w.notes))
  }

  lemma VisitEntry(kind: u32, format: u32, value: seq<byte>, v: Found, s: Spot)
    requires kind != TRAK && kind != ILST && format < 0x100
    ensures Visit(EntryBox(kind, format, value), v, s) == VisitData(format, value, v, Inner(s, kind))
  {
    hide VisitData;
    VisitContainer(kind, [Header(Data(format, value))], v, s);
    VisitCons(Header(Data(format, value)), [], v, Inner(s, kind));
  }

  lemma SmallNumber(n: nat)
    requires 0 < n < NUMBERS
    ensures !IsTag(n) && Plain(n) && n % TWO32 == n
  {
  }

  /** The metadata of a spot that there is. */
  predicate At(v: Found, cur: Option<nat>)
  {
    cur.Some? ==> cur.value < |v.tracks|
  }

  lemma TextsSet(v: Found, cur: Option<nat>, t: Texts, u: Texts)
    requires At(v, cur)
    ensures var w := WithTexts(v, cur, t);
            && At(w, cur) && TextsAt(w.tracks, w.notes, cur) == t && WithTexts(w, cur, u) == WithTexts(v, cur, u)
            && (cur.Some? ==> w.notes == v.notes) && w.notes.tags == v.notes.tags
  {
    if cur.Some? {
      var w := WithTexts(v, cur, t);
      assert w.tracks[cur.value].(texts := u) == v.tracks[cur.value].(texts := u);
    }
  }

  lemma TextsKept(v: Found, cur: Option<nat>)
    requires At(v, cur)
    ensures WithTexts(v, cur, TextsAt(v.tracks, v.notes, cur)) == v
  {
    if cur.Some? { assert v.tracks[cur.value := v.tracks[cur.value]] == v.tracks; }
  }

  /** The value of a key by its number. */
  lemma VisitNumber(n: nat, value: seq<byte>, v: Found, cur: Option<nat>, t: Texts)
    requires At(v, cur) && t == TextsAt(v.tracks, v.notes, cur) && n < |t.values| < NUMBERS
    ensures Visit(EntryBox((n + 1) % TWO32, UTF8, value), v, Spot(ILST, META, cur)) ==
            if value == [] then None else Some(WithTexts(v, cur, t.(values := t.values[n := Some(value)])))
  {
    hide IsTag, Plain, WithTexts, TextsAt;
    SmallNumber(n + 1);
    VisitEntry(n + 1, UTF8, value, v, Spot(ILST, META, cur));
  }

  lemma {:induction false} VisitNumbered(ms: seq<M.Meta>, n: nat, v: Found, cur: Option<nat>, t: Texts)
    requires At(v, cur) && t == TextsAt(v.tracks, v.notes, cur) && n + |ms| == |t.values| < NUMBERS
    ensures VisitAll(Numbered(ms, n), v, Spot(ILST, META, cur)) ==
            if NonEmpty(ms) then Some(WithTexts(v, cur, t.(values := t.values[..n] + ValuesOf(ms)))) else None
  {
    hide Visit, VisitAll, WithTexts, TextsAt, EntryBox;
    var s := Spot(ILST, META, cur);
    if ms == [] {
      VisitNone(v, s);
      assert t.values[..n] + ValuesOf(ms) == t.values;
      TextsKept(v, cur);
    } else {
      var u := t.(values := t.values[n := Some(ms[0].value)]);
      VisitNumber(n, ms[0].value, v, cur, t);
      VisitCons(EntryBox((n + 1) % TWO32, UTF8, ms[0].value), Numbered(ms[1..], n + 1), v, s);
      if ms[0].value != [] {
        var w := WithTexts(v, cur, u);
        var all := u.(values := u.values[..n + 1] + ValuesOf(ms[1..]));
        TextsSet(v, cur, u, all);
        VisitNumbered(ms[1..], n + 1, w, cur, u);
        assert u.values[..n + 1] + ValuesOf(ms[1..]) == t.values[..n] + ValuesOf(ms);
        NonEmptyNext(ms);
      }
    }
  }

  predicate PlainTags(ms: seq<M.Meta>)
  {
    forall i :: 0 <= i < |ms| ==> PlainTag(TagOf(ms[i].key))
  }

  function MoreTags(v: Found, tags: seq<(u32, seq<byte>)>): Found
  {
    v.(notes := v.notes.(tags := v.notes.tags + tags))
  }

  lemma VisitTag(m: M.Meta, v: Found, cur: Option<nat>)
    requires PlainTag(TagOf(m.key)) && |TextsAt(v.tracks, v.notes, cur).values| < NUMBERS
    ensures Visit(EntryBox(TagOf(m.key), UTF8, m.value), v, Spot(ILST, META, cur)) ==
            if m.value == [] then None else Some(MoreTags(v, TagsOf([m])))
  {
    hide TagOf, TextsAt;
    VisitEntry(TagOf(m.key), UTF8, m.value, v, Spot(ILST, META, cur));
    var tag := TagOf(m.key);
    assert TagsOf([m]) == (if IsTag(tag) then [(tag, m.value)] else []) by { assert [m][1..] == []; }
    assert v.notes.tags + [] == v.notes.tags;
    assert VisitData(UTF8, m.value, v, Spot(tag, ILST, cur)) == if m.value == [] then None else Some(MoreTags(v, TagsOf([m])));
  }

  lemma TagsNext(ms: seq<M.Meta>)
    requires ms != []
    ensures TagsOf(ms) == TagsOf([ms[0]]) + TagsOf(ms[1..])
  {
    hide TagOf, IsTag;
    assert [ms[0]][1..] == [];
  }

  lemma {:induction false} VisitTagged(ms: seq<M.Meta>, v: Found, cur: Option<nat>)
    requires PlainTags(ms) && |TextsAt(v.tracks, v.notes, cur).values| < NUMBERS
    ensures VisitAll(Tagged(ms), v, Spot(ILST, META, cur)) == if NonEmpty(ms) then Some(MoreTags(v, TagsOf(ms))) else None
  {
    hide Visit, VisitAll, EntryBox, PlainTag, TagOf, NonEmpty, IsTag;
    var s := Spot(ILST, META, cur);
    NonEmptyNext(ms);
    if ms == [] {
      VisitNone(v, s);
      assert v.notes.tags + [] == v.notes.tags;
    } else {
      VisitTag(ms[0], v, cur);
      VisitCons(EntryBox(TagOf(ms[0].key), UTF8, ms[0].value), Tagged(ms[1..]), v, s);
      if ms[0].value != [] {
        var w := MoreTags(v, TagsOf([ms[0]]));
        VisitTagged(ms[1..], w, cur);
        TagsNext(ms);
        assert w.notes.tags + TagsOf(ms[1..]) == v.notes.tags + TagsOf(ms);
      }
    }
  }

  lemma VisitCover(c: CoverArt, v: Found)
    ensures VisitAll(CoverBoxes(c), v, Spot(ILST, META, None)) == Some(WithNotes(v, Covered(c, v.notes)))
  {
    var s := Spot(ILST, META, None);
    if CoverBoxes(c) == [] {
      VisitNone(v, s);
    } else {
      var format, data := CoverFormat(c.value.0), c.value.1;
      VisitEntry(COVR, format, data, v, s);
      VisitCons(EntryBox(COVR, format, data), [], v, s);
    }
  }

  lemma {:induction false} VisitLocations(ms: seq<M.Meta>, v: Found, s: Spot)
    ensures VisitAll(LocationBoxes(ms), v, s) == Some(WithNotes(v, Located(ms, v.notes)))
  {
    if ms == [] {
      VisitNone(v, s);
    } else {
      VisitCons(Header(Location(ms[0].value)), LocationBoxes(ms[1..]), v, s);
      VisitLocations(ms[1..], WithNotes(v, v.notes.(location := Some(ms[0].value))), s);
    }
  }

  /** The list of keys and values. */
  lemma VisitKeyed(ms: seq<M.Meta>, v: Found, s: Spot)
    requires At(v, s.cur) && TextsAt(v.tracks, v.notes, s.cur) == NO_TEXTS && |ms| < NUMBERS && s.parent != UDTA
    ensures VisitAll(KeyedBoxes(ms), v, s) ==
            if NonEmpty(ms) then Some(WithTexts(v, s.cur, Texts(KeysOf(ms), ValuesOf(ms)))) else None
  {
    hide Visit, VisitAll, WithTexts, TextsAt, Numbered;
    if ms == [] {
      VisitNone(v, s);
      TextsKept(v, s.cur);
    } else {
      var t, u, inside := Blank(KeysOf(ms)), Texts(KeysOf(ms), ValuesOf(ms)), Inner(s, META);
      var w := WithTexts(v, s.cur, t);
      var list := Container(ILST, Numbered(ms, 0));
      VisitCons(KeyedBox(ms), [], v, s);
      VisitContainer(META, KeyedBox(ms).children, v, s);
      VisitHandler(false, [Header(Keys(KeysOf(ms)))] + [list], v, inside);
      VisitKeys(KeysOf(ms), [list], v, inside);
      VisitCons(list, [], w, inside);
      VisitList(Numbered(ms, 0), w, inside);
      TextsSet(v, s.cur, t, u);
      VisitNumbered(ms, 0, w, s.cur, t);
      assert t.(values := t.values[..0] + ValuesOf(ms)) == u;
    }
  }

  lemma VisitHandler(tagged: bool, bs: seq<Box>, v: Found, s: Spot)
    ensures VisitAll([Header(MetaHdlr(tagged))] + bs, v, s) == VisitAll(bs, v, s)
  {
    VisitCons(Header(MetaHdlr(tagged)), bs, v, s);
  }

  lemma VisitKeys(keys: seq<seq<byte>>, bs: seq<Box>, v: Found, s: Spot)
    requires |keys| <= MAX_KEYS
    ensures VisitAll([Header(Keys(keys))] + bs, v, s) == VisitAll(bs, WithTexts(v, s.cur, Blank(keys)), s)
  {
    VisitCons(Header(Keys(keys)), bs, v, s);
  }

  /** A list in a udta box replaces the tags there were. */
  lemma VisitList(cs: seq<Box>, v: Found, s: Spot)
    ensures Visit(Container(ILST, cs), v, s) == VisitAll(cs, if s.above == UDTA then NoTags(v) else v, Inner(s, ILST))
  {
  }

  lemma VisitFull(cs: seq<Box>, v: Found, s: Spot)
    ensures Visit(Full(META, cs), v, s) == VisitAll(cs, v, Inner(s, META))
  {
  }

  lemma VisitTaggedBox(ms: seq<M.Meta>, c: CoverArt, v: Found, s: Spot)
    requires s.parent == UDTA && PlainTags(ms) && |TextsAt(v.tracks, v.notes, s.cur).values| < NUMBERS && (s.cur.Some? ==> c.None?)
    ensures VisitAll(TaggedBoxes(ms, c), v, s) ==
            if !NonEmpty(ms) then None
            else Some(if ms == [] then v else WithNotes(v, Covered(c, v.notes.(tags := TagsOf(ms)))))
  {
    hide Visit, VisitAll, Tagged, CoverBoxes, NonEmpty, PlainTags, TagsOf, Covered, TextsAt;
    NonEmptyNext(ms);
    if ms == [] {
      VisitNone(v, s);
    } else {
      var inside, cs := Inner(s, META), Tagged(ms) + CoverBoxes(c);
      var w := NoTags(v);
      VisitCons(TaggedBox(ms, c), [], v, s);
      VisitFull(TaggedBox(ms, c).children, v, s);
      VisitHandler(true, [Container(ILST, cs)], v, inside);
      VisitCons(Container(ILST, cs), [], v, inside);
      VisitList(cs, v, inside);
      VisitAllAppend(Tagged(ms), CoverBoxes(c), w, Inner(inside, ILST));
      SameTexts(v, w, s.cur);
      VisitTagged(ms, w, s.cur);
      if NonEmpty(ms) { VisitCoverAt(c, MoreTags(w, TagsOf(ms)), s.cur); }
      assert [] + TagsOf(ms) == TagsOf(ms);
    }
  }

  lemma SameTexts(v: Found, w: Found, cur: Option<nat>)
    requires w.tracks == v.tracks && w.notes.texts == v.notes.texts
    ensures TextsAt(w.tracks, w.notes, cur) == TextsAt(v.tracks, v.notes, cur)
  {
  }

  lemma VisitCoverAt(c: CoverArt, v: Found, cur: Option<nat>)
    requires cur.Some? ==> c.None?
    ensures VisitAll(CoverBoxes(c), v, Spot(ILST, META, cur)) == Some(WithNotes(v, Covered(c, v.notes)))
  {
    if cur.None? { VisitCover(c, v); } else { VisitNone(v, Spot(ILST, META, cur)); }
  }

  lemma VisitUdta(tags: seq<M.Meta>, places: seq<M.Meta>, c: CoverArt, v: Found, s: Spot)
    requires PlainTags(tags) && |TextsAt(v.tracks, v.notes, s.cur).values| < NUMBERS && (s.cur.Some? ==> c.None?)
    ensures VisitAll(UdtaBoxes(tags, places, c), v, s) ==
            if !NonEmpty(tags) then None
            else Some(WithNotes(v, Located(places, if tags == [] then v.notes else Covered(c, v.notes.(tags := TagsOf(tags))))))
  {
    hide Visit, VisitAll, TaggedBoxes, LocationBoxes, NonEmpty, PlainTags, TagsOf, Covered, TextsAt;
    NonEmptyNext(tags);
    if tags == [] && places == [] {
      VisitNone(v, s);
    } else {
      var inside := Inner(s, UDTA);
      VisitCons(UdtaBox(tags, places, c), [], v, s);
      VisitContainer(UDTA, UdtaBox(tags, places, c).children, v, s);
      VisitAllAppend(TaggedBoxes(tags, c), LocationBoxes(places), v, inside);
      VisitTaggedBox(tags, c, v, inside);
      if NonEmpty(tags) {
        var w := if tags == [] then v else WithNotes(v, Covered(c, v.notes.(tags := TagsOf(tags))));
        VisitLocations(places, w, inside);
      }
    }
  }

  lemma {:induction false} KeptShort(ms: seq<M.Meta>, storage: u32)
    ensures |Kept(ms, storage)| <= |ms|
  {
    if ms != [] { KeptShort(ms[1..], storage); }
  }

  /** Every kept entry is one of the list. */
  lemma {:induction false} KeptFrom(ms: seq<M.Meta>, storage: u32, i: nat) returns (k: nat)
    requires i < |Kept(ms, storage)|
    ensures k < |ms| && R.Storage(ms[k].key) == storage && Kept(ms, storage)[i] == R.ClipMeta(ms[k])
  {
    hide R.Storage, R.ClipMeta;
    if R.Storage(ms[0].key) == storage && i == 0 {
      k := 0;
    } else {
      k := KeptFrom(ms[1..], storage, if R.Storage(ms[0].key) == storage then i - 1 else i);
      k := k + 1;
    }
  }

  /** Every entry is kept in its place. */
  lemma {:induction false} KeptTo(ms: seq<M.Meta>, storage: u32, k: nat) returns (i: nat)
    requires k < |ms| && R.Storage(ms[k].key) == storage
    ensures i < |Kept(ms, storage)| && Kept(ms, storage)[i] == R.ClipMeta(ms[k])
  {
    hide R.Storage, R.ClipMeta;
    if k == 0 {
      i := 0;
    } else {
      i := KeptTo(ms[1..], storage, k - 1);
      if R.Storage(ms[0].key) == storage { i := i + 1; }
    }
  }

  lemma ValuedKept(ms: seq<M.Meta>)
    ensures Valued(ms) <==> NonEmpty(Kept(ms, IN_META)) && NonEmpty(Kept(ms, IN_UDTA))
  {
    hide Kept, R.Storage;
    if Valued(ms) {
      forall i | 0 <= i < |Kept(ms, IN_META)| ensures Kept(ms, IN_META)[i].value != [] {
        var k := KeptFrom(ms, IN_META, i);
      }
      forall i | 0 <= i < |Kept(ms, IN_UDTA)| ensures Kept(ms, IN_UDTA)[i].value != [] {
        var k := KeptFrom(ms, IN_UDTA, i);
      }
    }
    if NonEmpty(Kept(ms, IN_META)) && NonEmpty(Kept(ms, IN_UDTA)) {
      forall k | 0 <= k < |ms| && R.Storage(ms[k].key) != IN_ROOT ensures 0 < |ms[k].value| < M.VALUE_MAX {
        StorageOf(ms[k].key);
        var i := KeptTo(ms, R.Storage(ms[k].key), k);
      }
    }
  }

  lemma StorageOf(key: M.Key)
    ensures R.Storage(key) == IN_META || R.Storage(key) == IN_UDTA || R.Storage(key) == IN_ROOT
  {
  }

  lemma PlainKept(ms: seq<M.Meta>)
    requires PlainMetas(ms)
    ensures PlainTags(Kept(ms, IN_UDTA))
  {
    hide Kept, PlainTag;
    forall i | 0 <= i < |Kept(ms, IN_UDTA)| ensures PlainTag(TagOf(Kept(ms, IN_UDTA)[i].key)) {
      var k := KeptFrom(ms, IN_UDTA, i);
      ClippedTag(ms[k].key);
    }
  }

  /** No tag is lost by clipping a key that is stored under it. */
  lemma ClippedTag(key: M.Key)
    requires PlainTag(TagOf(key)) && R.Storage(key) == IN_UDTA
    ensures PlainTag(TagOf(R.Clip(key, M.NAME_MAX)))
  {
  }

  /** What the metadata of the movie or of a track tells; an empty value makes the demuxer refuse the file. */
  lemma VisitMetaBoxes(ms: seq<M.Meta>, c: CoverArt, v: Found, s: Spot)
    requires PlainMetas(ms) && (s.cur.Some? ==> c.None?) && s.parent != UDTA
    requires At(v, s.cur) && TextsAt(v.tracks, v.notes, s.cur) == NO_TEXTS
    ensures VisitAll(MetaBoxes(ms, c), v, s) == if Valued(ms) then Some(Annotated(v, s.cur, ms, c)) else None
  {
    hide Visit, VisitAll, KeyedBoxes, UdtaBoxes, Kept, Valued, PlainTags, TextsAt, WithTexts, TagsOf, Covered, Located, NonEmpty;
    var keyed, tags, places := Kept(ms, IN_META), Kept(ms, IN_UDTA), Kept(ms, IN_ROOT);
    KeptShort(ms, IN_META);
    PlainKept(ms);
    ValuedKept(ms);
    VisitAllAppend(KeyedBoxes(keyed), UdtaBoxes(tags, places, c), v, s);
    VisitKeyed(keyed, v, s);
    if NonEmpty(keyed) {
      var w := WithTexts(v, s.cur, TextsOf(ms));
      TextsSet(v, s.cur, TextsOf(ms), TextsOf(ms));
      VisitUdta(tags, places, c, w, s);
    }
  }

  /** The values of keys are another matter. */
  lemma NotedTexts(ms: seq<M.Meta>, c: CoverArt, n: Notes)
    ensures Noted(ms, c, n).texts == n.texts
  {
    hide Kept, TagsOf;
    LocatedTexts(Kept(ms, IN_ROOT), if Kept(ms, IN_UDTA) == [] then n else Covered(c, n.(tags := TagsOf(Kept(ms, IN_UDTA)))));
  }

  lemma {:induction false} LocatedTexts(ms: seq<M.Meta>, n: Notes)
    ensures Located(ms, n).texts == n.texts
  {
    if ms != [] { LocatedTexts(ms[1..], n.(location := Some(ms[0].value))); }
  }

  // ---------- the boxes can be written, and read ----------

  lemma EntryWellTyped(kind: u32, format: u32, value: seq<byte>)
    requires kind != TRAK && kind != ILST
    ensures WellTyped(EntryBox(kind, format, value)) && (Plain(kind) ==> WellPlaced(ILST, EntryBox(kind, format, value)))
    ensures Bounded(EntryBox(kind, format, value)) && Refusal(EntryBox(kind, format, value)).None?
  {
    WellTypedOne(Header(Data(format, value)), kind);
    SturdyHeader(Data(format, value));
    ContainerRefused(kind, [Header(Data(format, value))]);
  }

  /** A list of entries that can be read. */
  predicate Entries(bs: seq<Box>)
  {
    AllWellTyped(bs) && AllPlaced(ILST, bs)
  }

  lemma EntryCons(kind: u32, format: u32, value: seq<byte>, bs: seq<Box>)
    requires Plain(kind) && Entries(bs)
    ensures Entries([EntryBox(kind, format, value)] + bs)
  {
    hide WellTyped, WellPlaced, EntryBox;
    EntryWellTyped(kind, format, value);
    WellTypedOne(EntryBox(kind, format, value), ILST);
    WellTypedConcat([EntryBox(kind, format, value)], bs, ILST);
  }

  lemma {:induction false} NumberedWellTyped(ms: seq<M.Meta>, n: nat)
    requires n + |ms| < NUMBERS
    ensures Entries(Numbered(ms, n))
  {
    hide EntryBox, WellTyped, WellPlaced, Plain, IsTag;
    if ms != [] {
      NumberedWellTyped(ms[1..], n + 1);
      SmallNumber(n + 1);
      EntryCons(n + 1, UTF8, ms[0].value, Numbered(ms[1..], n + 1));
    }
  }

  lemma {:induction false} TaggedWellTyped(ms: seq<M.Meta>)
    requires PlainTags(ms)
    ensures Entries(Tagged(ms))
  {
    hide EntryBox, WellTyped, WellPlaced, Plain, TagOf;
    if ms != [] {
      TaggedWellTyped(ms[1..]);
      assert PlainTag(TagOf(ms[0].key));
      EntryCons(TagOf(ms[0].key), UTF8, ms[0].value, Tagged(ms[1..]));
    }
  }

  lemma CoverWellTyped(c: CoverArt)
    ensures Entries(CoverBoxes(c))
  {
    hide EntryBox, WellTyped, WellPlaced;
    if CoverBoxes(c) != [] {
      EntryCons(COVR, CoverFormat(c.value.0), c.value.1, []);
      assert CoverBoxes(c) + [] == CoverBoxes(c);
    }
  }

  lemma {:induction false} LocationsWellTyped(ms: seq<M.Meta>, original: seq<M.Meta>, n: nat)
    requires n <= |Kept(original, IN_ROOT)| && ms == Kept(original, IN_ROOT)[n..]
    ensures AllWellTyped(LocationBoxes(ms)) && AllPlaced(UDTA, LocationBoxes(ms))
    decreases ms
  {
    hide WellTyped, WellPlaced, Kept, R.Storage;
    if ms != [] {
      var k := KeptFrom(original, IN_ROOT, n);
      LocationsWellTyped(ms[1..], original, n + 1);
      LocationWellTyped(ms[0].value);
      WellTypedOne(Header(Location(ms[0].value)), UDTA);
      WellTypedConcat([Header(Location(ms[0].value))], LocationBoxes(ms[1..]), UDTA);
    }
  }

  lemma LocationWellTyped(value: seq<byte>)
    requires |value| < 0x1_0000
    ensures WellTyped(Header(Location(value))) && WellPlaced(UDTA, Header(Location(value)))
  {
  }

  lemma HandlerWellTyped(tagged: bool)
    ensures AllWellTyped([Header(MetaHdlr(tagged))]) && AllPlaced(META, [Header(MetaHdlr(tagged))])
  {
    WellTypedOne(Header(MetaHdlr(tagged)), META);
  }

  lemma ListWellTyped(bs: seq<Box>)
    requires Entries(bs) && bs != []
    ensures AllWellTyped([Container(ILST, bs)]) && AllPlaced(META, [Container(ILST, bs)])
  {
    WellTypedOne(Container(ILST, bs), META);
  }

  lemma KeyedWellTyped(ms: seq<M.Meta>, parent: u32)
    requires |ms| < NUMBERS && (parent == MOOV || parent == TRAK)
    ensures AllWellTyped(KeyedBoxes(ms)) && AllPlaced(parent, KeyedBoxes(ms))
  {
    hide Numbered, AllWellTyped, AllPlaced;
    if ms == [] {
      NoneWellTyped(parent);
    } else {
      var list := Container(ILST, Numbered(ms, 0));
      HandlerWellTyped(false);
      NumberedWellTyped(ms, 0);
      NumberedThere(ms);
      ListWellTyped(Numbered(ms, 0));
      WellTypedOne(Header(Keys(KeysOf(ms))), META);
      WellTypedConcat([Header(Keys(KeysOf(ms)))], [list], META);
      WellTypedConcat([Header(MetaHdlr(false))], [Header(Keys(KeysOf(ms)))] + [list], META);
      WellTypedOne(KeyedBox(ms), parent);
    }
  }

  lemma NumberedThere(ms: seq<M.Meta>)
    requires ms != []
    ensures Numbered(ms, 0) != []
  {
  }

  lemma NoneWellTyped(parent: u32)
    ensures AllWellTyped([]) && AllPlaced(parent, [])
  {
  }

  lemma TaggedBoxWellTyped(ms: seq<M.Meta>, c: CoverArt)
    requires PlainTags(ms)
    ensures AllWellTyped(TaggedBoxes(ms, c)) && AllPlaced(UDTA, TaggedBoxes(ms, c))
  {
    hide CoverBoxes, AllWellTyped, AllPlaced, EntryBox, TagOf;
    if ms == [] {
      NoneWellTyped(UDTA);
    } else {
      var cs := Tagged(ms) + CoverBoxes(c);
      HandlerWellTyped(true);
      TaggedWellTyped(ms);
      CoverWellTyped(c);
      WellTypedConcat(Tagged(ms), CoverBoxes(c), ILST);
      ListWellTyped(cs);
      WellTypedConcat([Header(MetaHdlr(true))], [Container(ILST, cs)], META);
      WellTypedOne(TaggedBox(ms, c), UDTA);
    }
  }

  lemma MetaBoxesWellTyped(ms: seq<M.Meta>, c: CoverArt, parent: u32)
    requires PlainMetas(ms) && (parent == MOOV || parent == TRAK)
    ensures AllWellTyped(MetaBoxes(ms, c)) && AllPlaced(parent, MetaBoxes(ms, c))
  {
    hide AllWellTyped, AllPlaced, KeyedBoxes, TaggedBoxes, LocationBoxes, Kept, PlainTags;
    var keyed, tags, places := Kept(ms, IN_META), Kept(ms, IN_UDTA), Kept(ms, IN_ROOT);
    KeptShort(ms, IN_META);
    PlainKept(ms);
    KeyedWellTyped(keyed, parent);
    NoneWellTyped(parent);
    if tags != [] || places != [] {
      TaggedBoxWellTyped(tags, c);
      assert places[0..] == places;
      LocationsWellTyped(places, ms, 0);
      WellTypedConcat(TaggedBoxes(tags, c), LocationBoxes(places), UDTA);
      WellTypedOne(UdtaBox(tags, places, c), parent);
    }
    WellTypedConcat(KeyedBoxes(keyed), UdtaBoxes(tags, places, c), parent);
  }

  // ---------- their writers never give up ----------

  lemma EntrySturdy(kind: u32, format: u32, value: seq<byte>, bs: seq<Box>)
    requires Sturdy(bs)
    ensures Sturdy([EntryBox(kind, format, value)] + bs)
  {
    hide Sturdy, BoxBytes;
    SturdyHeader(Data(format, value));
    SturdyContainer(kind, [Header(Data(format, value))]);
    SturdyConcat([EntryBox(kind, format, value)], bs);
  }

  lemma {:induction false} ListsSturdy(ms: seq<M.Meta>, n: nat)
    ensures Sturdy(Numbered(ms, n)) && Sturdy(Tagged(ms)) && Sturdy(LocationBoxes(ms))
  {
    hide Sturdy, EntryBox, TagOf;
    if ms == [] {
      SturdyNone();
    } else {
      ListsSturdy(ms[1..], n + 1);
      EntrySturdy((n + 1) % TWO32, UTF8, ms[0].value, Numbered(ms[1..], n + 1));
      EntrySturdy(TagOf(ms[0].key), UTF8, ms[0].value, Tagged(ms[1..]));
      SturdyHeader(Location(ms[0].value));
      SturdyConcat([Header(Location(ms[0].value))], LocationBoxes(ms[1..]));
    }
  }

  lemma CoverSturdy(c: CoverArt)
    ensures Sturdy(CoverBoxes(c))
  {
    hide Sturdy, EntryBox;
    SturdyNone();
    if CoverBoxes(c) != [] {
      EntrySturdy(COVR, CoverFormat(c.value.0), c.value.1, []);
      assert CoverBoxes(c) + [] == CoverBoxes(c);
    }
  }

  lemma KeyedSturdy(ms: seq<M.Meta>)
    ensures Sturdy(KeyedBoxes(ms))
  {
    hide Sturdy, Numbered;
    SturdyNone();
    ListsSturdy(ms, 0);
    SturdyContainer(ILST, Numbered(ms, 0));
    SturdyHeader(Keys(KeysOf(ms)));
    SturdyHeader(MetaHdlr(false));
    SturdyConcat([Header(Keys(KeysOf(ms)))], [Container(ILST, Numbered(ms, 0))]);
    SturdyConcat([Header(MetaHdlr(false))], [Header(Keys(KeysOf(ms)))] + [Container(ILST, Numbered(ms, 0))]);
    SturdyContainer(META, KeyedBox(ms).children);
  }

  lemma TaggedSturdy(ms: seq<M.Meta>, c: CoverArt)
    ensures Sturdy(TaggedBoxes(ms, c))
  {
    hide Sturdy, Tagged, CoverBoxes;
    SturdyNone();
    ListsSturdy(ms, 0);
    CoverSturdy(c);
    SturdyConcat(Tagged(ms), CoverBoxes(c));
    SturdyContainer(ILST, Tagged(ms) + CoverBoxes(c));
    SturdyHeader(MetaHdlr(true));
    SturdyConcat([Header(MetaHdlr(true))], [Container(ILST, Tagged(ms) + CoverBoxes(c))]);
    SturdyContainer(META, TaggedBox(ms, c).children);
  }

  /** The boxes of metadata are always written whole if they fit. */
  lemma MetaBoxesSturdy(ms: seq<M.Meta>, c: CoverArt)
    ensures Sturdy(MetaBoxes(ms, c))
  {
    hide Sturdy, KeyedBoxes, TaggedBoxes, LocationBoxes, Kept;
    var tags, places := Kept(ms, IN_UDTA), Kept(ms, IN_ROOT);
    SturdyNone();
    KeyedSturdy(Kept(ms, IN_META));
    TaggedSturdy(tags, c);
    ListsSturdy(places, 0);
    SturdyConcat(TaggedBoxes(tags, c), LocationBoxes(places));
    SturdyContainer(UDTA, UdtaBox(tags, places, c).children);
    SturdyConcat(KeyedBoxes(Kept(ms, IN_META)), UdtaBoxes(tags, places, c));
  }
}
