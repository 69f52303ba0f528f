/**
 The metadata the demuxer offers its user: the keys that have values, the tags, the
 location and the cover, and how much of what was set comes back.
 */
module FinalMetadata {
  import opened Bytes
  import opened Wrappers
  import opened HeaderBoxes
  import opened Movie
  import opened MovieTexts
  import opened TextReader
  import M = Metadata
  import R = JournalReplay

  datatype Entry = Entry(key: seq<byte>, value: seq<byte>)

  /** The length of a string; none counts as empty, and so does one that is too long. */
  function Length(s: Option<seq<byte>>, bound: nat): nat
  {
    if s.None? || |CString(s.value)| >= bound then 0 else |CString(s.value)|
  }

  /** An entry with a key and a value. */
  function Shown(key: Option<seq<byte>>, value: Option<seq<byte>>): seq<Entry>
  {
    if Length(value, M.VALUE_MAX) > 0 && Length(key, M.NAME_MAX) > 0 then [Entry(CString(key.value), CString(value.value))] else []
  }

  function ShownTexts(t: Texts, i: nat): seq<Entry>
    requires |t.keys| == |t.values| && i <= |t.keys|
  {
    if i == 0 then [] else ShownTexts(t, i - 1) + Shown(Some(t.keys[i - 1]), t.values[i - 1])
  }

  function ShownTags(tags: seq<(u32, seq<byte>)>, i: nat): seq<Entry>
    requires i <= |tags|
  {
    if i == 0 then [] else ShownTags(tags, i - 1) + Shown(Some(BE32(tags[i - 1].0)), Some(tags[i - 1].1))
  }

  /** Keys first, then tags, then the location. */
  function FinalMetas(n: Notes): seq<Entry>
    requires |n.texts.keys| == |n.texts.values|
  {
    ShownTexts(n.texts, |n.texts.keys|) + ShownTags(n.tags, |n.tags|) + Shown(Some(BE32(LOCATION)), n.location)
  }

  /** A cover among the keys comes before one among the tags. */
  function FinalCover(n: Notes): Option<(u32, seq<byte>)>
  {
    if n.artwork.Some? && n.artwork.value.1 != [] then n.artwork else n.cover
  }

  method BuildMetadata(n: Notes) returns (metas: seq<Entry>, cover: Option<(u32, seq<byte>)>)
    requires |n.texts.keys| == |n.texts.values|
    ensures metas == FinalMetas(n) && cover == FinalCover(n)
  {
    hide BE32, CString;
    metas := [];
    for i := 0 to |n.texts.keys|
      invariant metas == ShownTexts(n.texts, i)
    {
      if Length(n.texts.values[i], M.VALUE_MAX) > 0 && Length(Some(n.texts.keys[i]), M.NAME_MAX) > 0 {
        metas := metas + [Entry(CString(n.texts.keys[i]), CString(n.texts.values[i].value))];
      }
    }
    ghost var keyed := metas;
    assert keyed + [] == keyed;
    for i := 0 to |n.tags|
      invariant metas == keyed + ShownTags(n.tags, i)
    {
      if Length(Some(n.tags[i].1), M.VALUE_MAX) > 0 && Length(Some(BE32(n.tags[i].0)), M.NAME_MAX) > 0 {
        metas := metas + [Entry(CString(BE32(n.tags[i].0)), CString(n.tags[i].1))];
      }
    }
    if Length(n.location, M.VALUE_MAX) > 0 && Length(Some(BE32(LOCATION)), M.NAME_MAX) > 0 {
      metas := metas + [Entry(CString(BE32(LOCATION)), CString(n.location.value))];
    }
    cover := if n.artwork.Some? && n.artwork.value.1 != [] then n.artwork else n.cover;
  }

  // ---------- what the codes stand for ----------

  predicate StartsWithCom(key: M.Key)
  {
    |key| >= 4 && key[0] == 0x63 && key[1] == 0x6f && key[2] == 0x6d && key[3] == 0x2e
  }

  /** A key that starts with "com." goes to the keys, the location to a box of its own, and any other to the tags. */
  lemma StorageMeans(key: M.Key)
    ensures R.Storage(key) == IN_META <==> StartsWithCom(key)
    ensures R.Storage(key) == IN_ROOT <==> key == M.Symbol("xyz")
    ensures R.Storage(key) == IN_UDTA <==> !StartsWithCom(key) && key != M.Symbol("xyz")
  {
    M.CodeOf(LOCATION, "xyz");
    assert M.Ascii("com.") == [0x63, 0x6f, 0x6d, 0x2e];
    if |key| >= 4 && key[..4] == M.Ascii("com.") {
      assert key[..4][0] == 0x63 && key[..4][1] == 0x6f && key[..4][2] == 0x6d && key[..4][3] == 0x2e;
      assert M.Symbol("xyz")[0] == 0xA9;
    }
    if StartsWithCom(key) { assert key[..4] == M.Ascii("com."); }
  }

  /** The keys that are accepted: those that start with "com.", and those of four bytes. */
  lemma KeysAccepted(key: M.Key)
    ensures M.ValidKey(key) <==> StartsWithCom(key) || |key| == 4
  {
    StorageMeans(key);
  }

  /** The last three bytes of a code. */
  lemma ThreeLetters(tag: u32, s: string)
    requires |s| == 3 && M.Narrow(s)
    ensures BE32(tag)[1..] == M.Ascii(s) <==> tag % 0x100_0000 == s[0] as int * 0x1_0000 + s[1] as int * 0x100 + s[2] as int
  {
    hide BE32;
    var a, b, c := LastBytes(tag);
    SameNumber(a, b, c, s[0] as int, s[1] as int, s[2] as int);
    assert M.Ascii(s) == [s[0] as int, s[1] as int, s[2] as int];
  }

  lemma LastBytes(tag: u32) returns (a: byte, b: byte, c: byte)
    ensures BE32(tag)[1..] == [a, b, c] && tag % 0x100_0000 == a as int * 0x1_0000 + b as int * 0x100 + c
  {
    var hi: u16, lo: u16 := tag / 0x1_0000, tag % 0x1_0000;
    a, b, c := hi % 0x100, lo / 0x100, lo % 0x100;
    var top: int := hi / 0x100;
    assert tag == top * 0x100_0000 + (a as int * 0x1_0000 + b as int * 0x100 + c);
    assert BE16(hi) == [top, a] && BE16(lo) == [b, c];
    assert BE32(tag) == BE16(hi) + BE16(lo);
  }

  lemma SameNumber(a: byte, b: byte, c: byte, x: byte, y: byte, z: byte)
    ensures a as int * 0x1_0000 + b as int * 0x100 + c == x as int * 0x1_0000 + y as int * 0x100 + z <==> a == x && b == y && c == z
  {
  }

  /** The tags the demuxer knows, by their last three letters. */
  lemma TagsMean(tag: u32)
    ensures IsTag(tag) <==>
              BE32(tag)[1..] in {M.Ascii("ART"), M.Ascii("nam"), M.Ascii("day"), M.Ascii("cmt"), M.Ascii("cpy"),
                                 M.Ascii("mak"), M.Ascii("mod"), M.Ascii("swr"), M.Ascii("too")}
  {
    hide BE32, M.Ascii;
    ThreeLetters(tag, "ART");
    ThreeLetters(tag, "nam");
    ThreeLetters(tag, "day");
    ThreeLetters(tag, "cmt");
    ThreeLetters(tag, "cpy");
    ThreeLetters(tag, "mak");
    ThreeLetters(tag, "mod");
    ThreeLetters(tag, "swr");
    ThreeLetters(tag, "too");
  }

  /** JPEG, PNG and BMP; a cover of another type has a format that no picture has. */
  lemma FormatsMean(kind: u32)
    ensures CoverFormat(1) == 13 && CoverFormat(2) == 14 && CoverFormat(3) == 27
    ensures IsPicture(CoverFormat(kind)) <==> 1 <= kind <= 3
    ensures forall format: u32 :: IsPicture(format) <==> exists k :: 1 <= k <= 3 && CoverFormat(k) == format
  {
    forall format: u32 | IsPicture(format) ensures exists k :: 1 <= k <= 3 && CoverFormat(k) == format {
      assert CoverFormat(1) == format || CoverFormat(2) == format || CoverFormat(3) == format;
    }
  }

  /** A picture is the cover under the tag "covr", and the artwork under the number of the key that is named so; anywhere else it is none. */
  lemma PictureMeans(n: Notes, format: u32, parent: u32, data: seq<byte>)
    ensures var named := 1 <= parent <= |n.texts.keys| && CString(n.texts.keys[parent - 1]) == M.Ascii("com.apple.quicktime.artwork");
            var tagged := BE32(parent) == M.Ascii("covr");
            WithPicture(n, format, parent, data) ==
              n.(cover := if tagged then Some((format, data)) else n.cover,
                 artwork := if named && !tagged then Some((format, data)) else n.artwork)
  {
    assert ARTWORK == M.Ascii("com.apple.quicktime.artwork");
    CovrIs(parent);
  }

  lemma CovrIs(code: u32)
    ensures code == COVR <==> BE32(code) == M.Ascii("covr")
  {
    assert M.Ascii("covr") == [0x63, 0x6f, 0x76, 0x72];
    assert BE32(COVR) == [0x63, 0x6f, 0x76, 0x72];
    assert FromBE32(BE32(code)) == code && FromBE32(BE32(COVR)) == COVR;
  }

  // ---------- what comes back ----------

  /** Strings of C have no zeros. */
  predicate Clean(ms: seq<M.Meta>)
  {
    forall i :: 0 <= i < |ms| ==> 0 !in ms[i].key && 0 !in ms[i].value
  }

  lemma {:induction false} CleanString(b: seq<byte>)
    requires 0 !in b
    ensures CString(b) == b
  {
    if b != [] { CleanString(b[1..]); }
  }

  /** The entries under keys; a key of 255 bytes or more is lost. */
  function KeyEntries(ms: seq<M.Meta>): seq<Entry>
  {
    if ms == [] then []
    else KeyEntries(ms[..|ms| - 1]) +
         var m := ms[|ms| - 1];
         if R.Storage(m.key) == IN_META && |m.key| < M.NAME_MAX then [Entry(m.key, m.value)] else []
  }

  /** The entries under tags that the demuxer knows. */
  function TagEntries(ms: seq<M.Meta>): seq<Entry>
  {
    if ms == [] then []
    else TagEntries(ms[..|ms| - 1]) +
         var m := ms[|ms| - 1];
         if R.Storage(m.key) == IN_UDTA && IsTag(TagOf(m.key)) then [Entry(m.key, m.value)] else []
  }

  /** The entry of the location. */
  function PlaceEntries(ms: seq<M.Meta>): seq<Entry>
  {
    if ms == [] then []
    else
      var m := ms[|ms| - 1];
      if R.Storage(m.key) != IN_ROOT then PlaceEntries(ms[..|ms| - 1])
      else if 0 < |m.value| < M.VALUE_MAX then [Entry(m.key, m.value)]
      else []
  }

  lemma {:induction false} KeptAppend(a: seq<M.Meta>, b: seq<M.Meta>, storage: u32)
    ensures Kept(a + b, storage) == Kept(a, storage) + Kept(b, storage)
  {
    hide R.Storage, R.ClipMeta;
    if a == [] {
      assert a + b == b;
    } else {
      assert (a + b)[1..] == a[1..] + b;
      KeptAppend(a[1..], b, storage);
    }
  }

  lemma KeptSnoc(ms: seq<M.Meta>, storage: u32)
    requires ms != []
    ensures var m := ms[|ms| - 1];
            Kept(ms, storage) == Kept(ms[..|ms| - 1], storage) + if R.Storage(m.key) == storage then [R.ClipMeta(m)] else []
  {
    hide R.Storage, R.ClipMeta;
    var m := ms[|ms| - 1];
    assert ms == ms[..|ms| - 1] + [m] && [m][1..] == [];
    KeptAppend(ms[..|ms| - 1], [m], storage);
    assert Kept([m], storage) == (if R.Storage(m.key) == storage then [R.ClipMeta(m)] else []) + Kept([], storage);
  }

  lemma NoTags()
    ensures TagsOf([]) == []
  {
  }

  lemma {:induction false} TagsAppend(a: seq<M.Meta>, b: seq<M.Meta>)
    ensures TagsOf(a + b) == TagsOf(a) + TagsOf(b)
  {
    hide TagOf, IsTag, TagsOf;
    if a == [] {
      assert a + b == b;
      NoTags();
    } else {
      assert (a + b)[1..] == a[1..] + b;
      TagsAppend(a[1..], b);
      TagsNext(a);
      TagsNext(a + b);
      assert TagsOf([a[0]]) + (TagsOf(a[1..]) + TagsOf(b)) == (TagsOf([a[0]]) + TagsOf(a[1..])) + TagsOf(b);
    }
  }

  lemma {:induction false} LocatedSnoc(ms: seq<M.Meta>, n: Notes)
    requires ms != []
    ensures Located(ms, n).location == Some(ms[|ms| - 1].value)
    ensures Located(ms, n).tags == n.tags && Located(ms, n).texts == n.texts && Located(ms, n).cover == n.cover && Located(ms, n).artwork == n.artwork
  {
    if |ms| > 1 { LocatedSnoc(ms[1..], n.(location := Some(ms[0].value))); }
  }

  lemma {:induction false} ShownPrefix(t: Texts, u: Texts, i: nat)
    requires |t.keys| == |t.values| && |u.keys| == |u.values| && i <= |t.keys| && i <= |u.keys|
    requires t.keys[..i] == u.keys[..i] && t.values[..i] == u.values[..i]
    ensures ShownTexts(t, i) == ShownTexts(u, i)
  {
    hide Shown;
    if i > 0 {
      assert t.keys[..i - 1] == t.keys[..i][..i - 1] && u.keys[..i - 1] == u.keys[..i][..i - 1];
      assert t.values[..i - 1] == t.values[..i][..i - 1] && u.values[..i - 1] == u.values[..i][..i - 1];
      assert t.keys[..i][i - 1] == u.keys[..i][i - 1] && t.values[..i][i - 1] == u.values[..i][i - 1];
      ShownPrefix(t, u, i - 1);
    }
  }

  lemma {:induction false} ShownTagsPrefix(t: seq<(u32, seq<byte>)>, u: seq<(u32, seq<byte>)>, i: nat)
    requires i <= |t| && i <= |u| && t[..i] == u[..i]
    ensures ShownTags(t, i) == ShownTags(u, i)
  {
    hide Shown, BE32;
    if i > 0 {
      assert t[..i - 1] == t[..i][..i - 1] && u[..i - 1] == u[..i][..i - 1] && t[..i][i - 1] == u[..i][i - 1];
      ShownTagsPrefix(t, u, i - 1);
    }
  }

  /** An entry with a value that can be read. */
  lemma ShownClipped(m: M.Meta)
    requires 0 !in m.key && 0 !in m.value && 0 < |m.value| < M.VALUE_MAX && m.key != []
    ensures var c := R.ClipMeta(m);
            c.value == m.value && Shown(Some(c.key), Some(c.value)) == if |m.key| < M.NAME_MAX then [Entry(m.key, m.value)] else []
  {
    CleanString(m.key);
    CleanString(m.value);
    CleanString([]);
  }

  lemma CleanNext(ms: seq<M.Meta>)
    requires ms != [] && Clean(ms)
    ensures var m := ms[|ms| - 1]; 0 !in m.key && 0 !in m.value && Clean(ms[..|ms| - 1])
    ensures Valued(ms) ==> Valued(ms[..|ms| - 1]) && (R.Storage(ms[|ms| - 1].key) != IN_ROOT ==> 0 < |ms[|ms| - 1].value| < M.VALUE_MAX)
  {
    hide R.Storage;
  }

  lemma StorageNeedsKey(key: M.Key)
    requires R.Storage(key) == IN_META || IsTag(TagOf(key))
    ensures key != []
  {
  }

  lemma {:induction false} KeysShown(ms: seq<M.Meta>)
    requires Clean(ms) && Valued(ms)
    ensures ShownTexts(TextsOf(ms), |Kept(ms, IN_META)|) == KeyEntries(ms)
  {
    hide Clean, Valued, R.Storage, R.ClipMeta, Shown, Kept;
    if ms == [] {
      NothingKept();
    } else {
      var before, m := ms[..|ms| - 1], ms[|ms| - 1];
      CleanNext(ms);
      KeysShown(before);
      KeptSnoc(ms, IN_META);
      if R.Storage(m.key) == IN_META {
        var t, u, n := TextsOf(ms), TextsOf(before), |Kept(before, IN_META)|;
        StorageNeedsKey(m.key);
        ShownClipped(m);
        assert t.keys[..n] == u.keys && t.values[..n] == u.values && u.keys[..n] == u.keys && u.values[..n] == u.values;
        ShownPrefix(t, u, n);
        assert ShownTexts(t, n + 1) == ShownTexts(t, n) + Shown(Some(t.keys[n]), t.values[n]);
      } else {
        assert Kept(ms, IN_META) == Kept(before, IN_META);
      }
    }
  }

  lemma NothingKept()
    ensures Kept([], IN_META) == [] && Kept([], IN_UDTA) == [] && Kept([], IN_ROOT) == []
  {
  }

  /** The tag of an entry under four bytes is those bytes. */
  lemma TagShown(m: M.Meta)
    requires 0 !in m.key && 0 !in m.value && 0 < |m.value| < M.VALUE_MAX && R.Storage(m.key) == IN_UDTA
    ensures var tags := TagsOf([R.ClipMeta(m)]);
            ShownTags(tags, |tags|) == if IsTag(TagOf(m.key)) then [Entry(m.key, m.value)] else []
  {
    hide IsTag, CString, R.Storage, BE32, FromBE32;
    var c := R.ClipMeta(m);
    assert [c][1..] == [] && (c.key == m.key || c.key == []);
    NoTag();
    if IsTag(TagOf(m.key)) {
      assert c == m;
      ShownClipped(m);
      BE32Inverse(m.key);
      var tags := TagsOf([c]);
      assert tags == [(TagOf(m.key), m.value)];
      assert ShownTags(tags, 0) == [] && ShownTags(tags, 1) == Shown(Some(m.key), Some(m.value));
    }
  }

  lemma NoTag()
    ensures !IsTag(0)
  {
  }

  /** The tags that are shown, one after the other. */
  lemma {:induction false} ShownTagsAppend(a: seq<(u32, seq<byte>)>, b: seq<(u32, seq<byte>)>, i: nat)
    requires i <= |b|
    ensures ShownTags(a + b, |a| + i) == ShownTags(a, |a|) + ShownTags(b, i)
  {
    hide Shown, BE32;
    if i == 0 {
      assert (a + b)[..|a|] == a[..|a|];
      ShownTagsPrefix(a + b, a, |a|);
    } else {
      ShownTagsAppend(a, b, i - 1);
      assert (a + b)[|a| + i - 1] == b[i - 1];
    }
  }

  lemma {:induction false} TagsShown(ms: seq<M.Meta>)
    requires Clean(ms) && Valued(ms)
    ensures var tags := TagsOf(Kept(ms, IN_UDTA)); ShownTags(tags, |tags|) == TagEntries(ms)
  {
    hide Clean, Valued, R.Storage, R.ClipMeta, Shown, Kept, IsTag, TagOf, TagsOf, ShownTags;
    if ms == [] {
      NothingKept();
      NoTagsOfNothing();
    } else {
      var before, m := ms[..|ms| - 1], ms[|ms| - 1];
      CleanNext(ms);
      TagsShown(before);
      KeptSnoc(ms, IN_UDTA);
      if R.Storage(m.key) == IN_UDTA {
        var one := TagsOf([R.ClipMeta(m)]);
        TagsAppend(Kept(before, IN_UDTA), [R.ClipMeta(m)]);
        TagShown(m);
        ShownTagsAppend(TagsOf(Kept(before, IN_UDTA)), one, |one|);
      } else {
        assert Kept(ms, IN_UDTA) == Kept(before, IN_UDTA);
      }
    }
  }

  lemma NoTagsOfNothing()
    ensures TagsOf([]) == [] && ShownTags([], 0) == []
  {
  }

  lemma {:induction false} PlaceShown(ms: seq<M.Meta>)
    requires Clean(ms) && Kept(ms, IN_ROOT) != []
    ensures var kept := Kept(ms, IN_ROOT); Shown(Some(BE32(LOCATION)), Some(kept[|kept| - 1].value)) == PlaceEntries(ms)
  {
    hide Clean, R.Storage, R.ClipMeta, Shown, Kept, BE32;
    if ms == [] {
      NothingKept();
    } else {
      var before, m := ms[..|ms| - 1], ms[|ms| - 1];
      CleanNext(ms);
      KeptSnoc(ms, IN_ROOT);
      if R.Storage(m.key) == IN_ROOT {
        LocationShown(m);
      } else {
        assert Kept(ms, IN_ROOT) == Kept(before, IN_ROOT);
        PlaceShown(before);
      }
    }
  }

  lemma LocationShown(m: M.Meta)
    requires 0 !in m.key && 0 !in m.value && R.Storage(m.key) == IN_ROOT
    ensures m.key == BE32(LOCATION)
    ensures Shown(Some(BE32(LOCATION)), Some(R.ClipMeta(m).value)) == if 0 < |m.value| < M.VALUE_MAX then [Entry(m.key, m.value)] else []
  {
    hide BE32;
    CleanString(m.key);
    CleanString(R.ClipMeta(m).value);
  }

  /** Tracks leave no cover. */
  lemma {:induction false} NoTrackCover(rows: seq<TrackRow>, n: Notes)
    ensures TrackNotes(rows, n).cover == n.cover && TrackNotes(rows, n).artwork == n.artwork
  {
    hide Noted;
    if rows != [] {
      NotedCover(rows[0].state.metas, NO_COVER, n);
      NoTrackCover(rows[1..], if rows[0].state.samples == [] then n else Noted(rows[0].state.metas, NO_COVER, n));
    }
  }

  lemma NotedCover(ms: seq<M.Meta>, c: CoverArt, n: Notes)
    ensures Noted(ms, c, n).artwork == n.artwork
    ensures Noted(ms, c, n).cover == if Kept(ms, IN_UDTA) == [] then n.cover else Covered(c, n).cover
    ensures Noted(ms, c, n).tags == if Kept(ms, IN_UDTA) == [] then n.tags else TagsOf(Kept(ms, IN_UDTA))
    ensures Noted(ms, c, n).location ==
            var places := Kept(ms, IN_ROOT); if places == [] then n.location else Some(places[|places| - 1].value)
  {
    hide Kept, TagsOf;
    var places, tags := Kept(ms, IN_ROOT), Kept(ms, IN_UDTA);
    if places != [] { LocatedSnoc(places, if tags == [] then n else Covered(c, n.(tags := TagsOf(tags)))); }
  }

  /**
     What the demuxer offers of the metadata of a file whose values can be read. Every
     key shorter than 255 bytes is there with its value, in order; so is every tag the
     demuxer knows, and the location if it is not empty. Only if the file has no tags, or
     no location, are those of its tracks taken for its own.
  */
  lemma MetadataBack(rows: seq<TrackRow>, ms: seq<M.Meta>, c: CoverArt)
    requires Clean(ms) && Valued(ms)
    ensures var n, of := MovieNotes(rows, ms, c), TrackNotes(rows, NO_NOTES);
            && |n.texts.keys| == |n.texts.values|
            && FinalMetas(n) == KeyEntries(ms)
                 + (if Kept(ms, IN_UDTA) == [] then ShownTags(of.tags, |of.tags|) else TagEntries(ms))
                 + (if Kept(ms, IN_ROOT) == [] then Shown(Some(BE32(LOCATION)), of.location) else PlaceEntries(ms))
  {
    hide Clean, Valued, Kept, TagsOf, Shown, TrackNotes, Covered, BE32, Noted;
    var of := TrackNotes(rows, NO_NOTES).(texts := TextsOf(ms));
    NotedTexts(ms, c, of);
    NotedCover(ms, c, of);
    KeysShown(ms);
    TagsShown(ms);
    if Kept(ms, IN_ROOT) != [] { PlaceShown(ms); }
  }

  /** Some key is neither one of the keys that start with "com." nor the location. */
  predicate AnyTag(ms: seq<M.Meta>)
  {
    exists i :: 0 <= i < |ms| && !StartsWithCom(ms[i].key) && ms[i].key != M.Symbol("xyz")
  }

  lemma {:induction false} AnyTagKept(ms: seq<M.Meta>)
    ensures AnyTag(ms) <==> Kept(ms, IN_UDTA) != []
  {
    hide R.Storage, R.ClipMeta, StartsWithCom, M.Symbol;
    if ms != [] {
      AnyTagKept(ms[1..]);
      StorageMeans(ms[0].key);
      assert forall i :: 0 < i < |ms| ==> ms[i] == ms[1..][i - 1];
      assert forall i :: 0 <= i < |ms[1..]| ==> ms[1..][i] == ms[i + 1];
    }
  }

  /** The cover is there exactly when the file has tags beside it, and is a picture of a known kind. */
  lemma CoverBack(rows: seq<TrackRow>, ms: seq<M.Meta>, c: CoverArt)
    ensures FinalCover(MovieNotes(rows, ms, c)) ==
            if c.Some? && 1 <= c.value.0 <= 3 && c.value.1 != [] && AnyTag(ms) then
              Some((match c.value.0 case 1 => 13 case 2 => 14 case _ => 27, c.value.1))
            else None
  {
    AnyTagKept(ms);
    hide Kept, TagsOf, TrackNotes, Noted, AnyTag;
    var of := TrackNotes(rows, NO_NOTES).(texts := TextsOf(ms));
    NoTrackCover(rows, NO_NOTES);
    NotedCover(ms, c, of);
  }
}
