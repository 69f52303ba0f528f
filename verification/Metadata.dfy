/**
 Metadata keys: where they are stored, their alternates, and adding one to a
 list. Keys and values are byte strings.
 */
module Metadata {
  import opened Bytes
  import opened Wrappers

  type Key = seq<byte>

  datatype Meta = Meta(key: Key, value: seq<byte>)

  const NAME_MAX: nat := 255
  const VALUE_MAX: nat := 65535

  function Ascii(s: string): (b: seq<byte>)
    ensures |b| == |s| && forall i :: 0 <= i < |s| ==> b[i] == s[i] as int % 0x100
  {
    seq(|s|, i requires 0 <= i < |s| => s[i] as int % 0x100)
  }

  /** The QuickTime keys, without their common prefix, and the four-byte keys they stand beside. */
  const NAMES: seq<string> := [
    "artist", "title", "comment", "copyright", "creationdate", "location.ISO6709", "make", "model", "software"]

  const CODES: seq<u32> := [
    0xA9415254, 0xA96e616d, 0xA9636d74, 0xA9637079, 0xA9646179, 0xA978797a, 0xA96d616b, 0xA96d6f64, 0xA9737772]

  function Alternates(): (t: seq<(Key, Key)>)
    ensures |t| == 9
  {
    seq(9, i requires 0 <= i < 9 => (Ascii("com.apple.quicktime.") + Ascii(NAMES[i]), BE32(CODES[i])))
  }

  /** The alternate of a key, searching the table from row `i`. */
  function AlternateFrom(table: seq<(Key, Key)>, key: Key, i: nat): Option<Key>
    requires i <= |table|
    decreases |table| - i
  {
    if i == |table| then None
    else if key == table[i].0 then Some(table[i].1)
    else if key == table[i].1 then Some(table[i].0)
    else AlternateFrom(table, key, i + 1)
  }

  function Alternate(key: Key): Option<Key>
  {
    AlternateFrom(Alternates(), key, 0)
  }

  /** No key occurs twice in the table. */
  predicate KeysDistinct(table: seq<(Key, Key)>)
  {
    && (forall i, j :: 0 <= i < |table| && 0 <= j < |table| ==> table[i].0 != table[j].1)
    && (forall i, j :: 0 <= i < j < |table| ==> table[i].0 != table[j].0 && table[i].1 != table[j].1)
  }

  lemma NamesDistinct(i: nat, j: nat)
    requires i < j < 9
    ensures NAMES[i] != NAMES[j] && CODES[i] != CODES[j]
  {
    assert NAMES[1][0] == 't' && NAMES[7][0] == 'm';
    assert |NAMES[0]| == 6 && |NAMES[1]| == 5 && |NAMES[2]| == 7 && |NAMES[3]| == 9 && |NAMES[4]| == 12;
    assert |NAMES[5]| == 16 && |NAMES[6]| == 4 && |NAMES[7]| == 5 && |NAMES[8]| == 8;
  }

  predicate Narrow(s: string)
  {
    forall i :: 0 <= i < |s| ==> s[i] as int < 0x100
  }

  lemma AsciiInjective(s: string, t: string)
    requires Narrow(s) && Narrow(t) && Ascii(s) == Ascii(t)
    ensures s == t
  {
    forall i | 0 <= i < |s| ensures s[i] == t[i] {
      assert Ascii(s)[i] == Ascii(t)[i];
    }
  }

  lemma AlternatesDistinct()
    ensures KeysDistinct(Alternates())
  {
    hide Ascii, BE32;
    var t := Alternates();
    var prefix := Ascii("com.apple.quicktime.");
    forall i, j | 0 <= i < 9 && 0 <= j < 9 ensures t[i].0 != t[j].1 {
      assert |t[i].0| >= 20 && |t[j].1| == 4;
    }
    forall i, j | 0 <= i < j < 9 ensures t[i].0 != t[j].0 && t[i].1 != t[j].1 {
      NamesDistinct(i, j);
      if t[i].0 == t[j].0 {
        assert Ascii(NAMES[i]) == t[i].0[20..] == t[j].0[20..] == Ascii(NAMES[j]);
        assert Narrow(NAMES[i]) && Narrow(NAMES[j]);
        AsciiInjective(NAMES[i], NAMES[j]);
      }
    }
  }

  lemma {:induction false} AlternateFromInvolutive(table: seq<(Key, Key)>, key: Key, i: nat)
    requires i <= |table| && KeysDistinct(table)
    ensures var a := AlternateFrom(table, key, i);
            a.Some? ==> exists r :: i <= r < |table| && ((key == table[r].0 && a.value == table[r].1) || (key == table[r].1 && a.value == table[r].0))
    decreases |table| - i
  {
    if i < |table| && key != table[i].0 && key != table[i].1 {
      AlternateFromInvolutive(table, key, i + 1);
    }
  }

  lemma {:induction false} AlternateFromRow(table: seq<(Key, Key)>, i: nat, r: nat)
    requires i <= r < |table| && KeysDistinct(table)
    ensures AlternateFrom(table, table[r].0, i) == Some(table[r].1)
    ensures AlternateFrom(table, table[r].1, i) == Some(table[r].0)
    decreases |table| - i
  {
    if i < r { AlternateFromRow(table, i + 1, r); }
  }

  /** The alternate of the alternate is the key itself, and never the alternate. */
  lemma AlternateInvolutive(key: Key)
    ensures var a := Alternate(key); a.Some? ==> Alternate(a.value) == Some(key) && a.value != key
  {
    AlternatesDistinct();
    AlternateFromInvolutive(Alternates(), key, 0);
    var a := Alternate(key);
    if a.Some? {
      var r :| 0 <= r < |Alternates()| && ((key == Alternates()[r].0 && a.value == Alternates()[r].1) || (key == Alternates()[r].1 && a.value == Alternates()[r].0));
      AlternateFromRow(Alternates(), 0, r);
    }
  }

  /** A four-byte key: the copyright sign and three letters. */
  function Symbol(s: string): (b: seq<byte>)
    ensures |b| == 1 + |s|
  {
    [0xA9] + Ascii(s)
  }

  /** The keys of QuickTime metadata and of user data that say the same. */
  function Said(r: nat): (row: (string, string))
    requires r < 9
    ensures Narrow(row.1) && |row.1| == 3
  {
    match r
    case 0 => ("com.apple.quicktime.artist", "ART")
    case 1 => ("com.apple.quicktime.title", "nam")
    case 2 => ("com.apple.quicktime.comment", "cmt")
    case 3 => ("com.apple.quicktime.copyright", "cpy")
    case 4 => ("com.apple.quicktime.creationdate", "day")
    case 5 => ("com.apple.quicktime.location.ISO6709", "xyz")
    case 6 => ("com.apple.quicktime.make", "mak")
    case 7 => ("com.apple.quicktime.model", "mod")
    case _ => ("com.apple.quicktime.software", "swr")
  }

  predicate SaysTheSame(name: Key, code: Key)
  {
    exists r | 0 <= r < 9 :: name == Ascii(Said(r).0) && code == Symbol(Said(r).1)
  }

  /** The four bytes of a code that is a symbol. */
  lemma CodeOf(code: u32, s: string)
    requires |s| == 3 && Narrow(s)
    requires code == 0xA9 * 0x100_0000 + s[0] as int * 0x1_0000 + s[1] as int * 0x100 + s[2] as int
    ensures BE32(code) == Symbol(s)
  {
    var hi: u16, lo: u16 := code / 0x1_0000, code % 0x1_0000;
    assert hi == 0xA9 * 0x100 + s[0] as int && lo == s[1] as int * 0x100 + s[2] as int;
    assert BE16(hi) == [0xA9, s[0] as int] && BE16(lo) == [s[1] as int, s[2] as int];
    assert BE32(code) == BE16(hi) + BE16(lo);
    assert Ascii(s) == [s[0] as int, s[1] as int, s[2] as int];
  }

  lemma NameOf(name: string, all: string)
    requires all == "com.apple.quicktime." + name
    ensures Ascii("com.apple.quicktime.") + Ascii(name) == Ascii(all)
  {
  }

  lemma RowIs(r: nat)
    requires r < 9
    ensures Alternates()[r] == (Ascii(Said(r).0), Symbol(Said(r).1))
  {
    hide Ascii, BE32, Symbol;
    CodeOf(CODES[r], Said(r).1);
    NameOf(NAMES[r], Said(r).0);
  }

  /** A key has an alternate exactly if it is one of these, and then it is the one that says the same. */
  lemma AlternateMeans(key: Key, other: Key)
    ensures Alternate(key) == Some(other) <==> SaysTheSame(key, other) || SaysTheSame(other, key)
  {
    hide Alternates, Ascii, Symbol, Said;
    AlternatesDistinct();
    var t := Alternates();
    forall r | 0 <= r < 9 ensures t[r] == (Ascii(Said(r).0), Symbol(Said(r).1)) {
      RowIs(r);
    }
    AlternateFromInvolutive(t, key, 0);
    if SaysTheSame(key, other) {
      var r :| 0 <= r < 9 && key == Ascii(Said(r).0) && other == Symbol(Said(r).1);
      AlternateFromRow(t, 0, r);
    }
    if SaysTheSame(other, key) {
      var r :| 0 <= r < 9 && other == Ascii(Said(r).0) && key == Symbol(Said(r).1);
      AlternateFromRow(t, 0, r);
    }
  }

  // ---------- lists of metadata ----------

  /** Keys of the two accepted kinds. */
  predicate ValidKey(key: Key)
  {
    (|key| >= 4 && key[..4] == Ascii("com.")) || |key| == 4
  }

  /** The alternate of a key is accepted too. */
  lemma AlternateValid(key: Key)
    ensures Alternate(key).Some? ==> ValidKey(Alternate(key).value)
  {
    hide Ascii, BE32;
    AlternatesDistinct();
    AlternateFromInvolutive(Alternates(), key, 0);
    if Alternate(key).Some? {
      var t := Alternates();
      var r :| 0 <= r < |t| && ((key == t[r].0 && Alternate(key).value == t[r].1) || (key == t[r].1 && Alternate(key).value == t[r].0));
      ComPrefix(NAMES[r]);
    }
  }

  lemma ComPrefix(name: string)
    ensures ValidKey(Ascii("com.apple.quicktime.") + Ascii(name))
  {
    var k := Ascii("com.apple.quicktime.") + Ascii(name);
    assert k[..4] == Ascii("com.");
  }

  /** The position of the first entry with the key, or the length of the list. */
  function IndexOf(list: seq<Meta>, key: Key): (i: nat)
    ensures i <= |list| && (i < |list| ==> list[i].key == key)
    ensures forall j :: 0 <= j < i ==> list[j].key != key
  {
    if list == [] || list[0].key == key then 0 else 1 + IndexOf(list[1..], key)
  }

  function SetValue(list: seq<Meta>, key: Key, value: seq<byte>): seq<Meta>
  {
    var i := IndexOf(list, key);
    if i < |list| then list[i := Meta(key, value)] else list + [Meta(key, value)]
  }

  /** A user's key overrides and brings its alternate along; an alternate never overrides. */
  function Add(list: seq<Meta>, key: Key, value: seq<byte>, user: bool): seq<Meta>
    decreases user
  {
    if IndexOf(list, key) < |list| && !user then list
    else
      var l := SetValue(list, key, value);
      if user && Alternate(key).Some? then Add(l, Alternate(key).value, value, false) else l
  }

  /** What a list says of a key: the value of the first entry that has it. */
  function ValueOf(list: seq<Meta>, key: Key): Option<seq<byte>>
  {
    var i := IndexOf(list, key);
    if i < |list| then Some(list[i].value) else None
  }

  lemma SetValueMeans(list: seq<Meta>, key: Key, value: seq<byte>, other: Key)
    ensures ValueOf(SetValue(list, key, value), other) == if other == key then Some(value) else ValueOf(list, other)
  {
    hide IndexOf;
    var r, at := SetValue(list, key, value), IndexOf(list, key);
    assert forall k :: 0 <= k < |list| && k != at ==> r[k] == list[k];
    var i, j := IndexOf(r, other), IndexOf(list, other);
    if other == key {
      assert r[at].key == other && i == at;
    } else if j < |list| {
      assert r[j] == list[j] && i == j;
    }
  }

  /** Adding a key gives it the value, and its alternate too if that had none; nothing is said otherwise of any other key. */
  lemma AddMeans(list: seq<Meta>, key: Key, value: seq<byte>, other: Key)
    ensures ValueOf(Add(list, key, value, true), other) ==
            if other == key then Some(value)
            else if Alternate(key) == Some(other) && ValueOf(list, other).None? then Some(value)
            else ValueOf(list, other)
  {
    hide Alternate, IndexOf, SetValue;
    AlternateInvolutive(key);
    SetValueMeans(list, key, value, other);
    if Alternate(key).Some? {
      SetValueMeans(list, key, value, Alternate(key).value);
      SetValueMeans(SetValue(list, key, value), Alternate(key).value, value, other);
    }
  }

  /**
   The library's addition to a list of metadata. A user's key overrides, and brings
   its alternate along unless that is there already; `found` tells an override.
   */
  method AddMetadata(list: seq<Meta>, key: Key, value: seq<byte>, user: bool) returns (r: Option<seq<Meta>>, found: bool)
    ensures r.Some? <==> ValidKey(key)
    ensures r.Some? ==> r.value == Add(list, key, value, user)
    ensures found <==> ValidKey(key) && user && IndexOf(list, key) < |list|
    decreases user
  {
    hide Alternate, IndexOf, ValidKey;
    if !ValidKey(key) { return None, false; }
    var i := FindKey(list, key);
    if i < |list| && !user { return Some(list), false; }
    found := i < |list|;
    var l := if found then list[i := Meta(key, value)] else list + [Meta(key, value)];
    if user && Alternate(key).Some? {
      AlternateValid(key);
      var again;
      r, again := AddMetadata(l, Alternate(key).value, value, false);
    } else {
      r := Some(l);
    }
  }

  /** The walk along the list for a key. */
  method FindKey(list: seq<Meta>, key: Key) returns (i: nat)
    ensures i == IndexOf(list, key)
  {
    i := 0;
    while i < |list| && list[i].key != key
      invariant i <= |list| && forall j :: 0 <= j < i ==> list[j].key != key
    {
      i := i + 1;
    }
  }

  predicate DistinctKeys(m: seq<Meta>)
  {
    forall i, j :: 0 <= i < j < |m| ==> m[i].key != m[j].key
  }

  /** Entries `i` and `j` are alternates of each other. */
  predicate Mates(m: seq<Meta>, i: nat, j: nat)
    requires i < |m| && j < |m|
  {
    Alternate(m[i].key) == Some(m[j].key)
  }

  /** A key with an alternate sits next to it. */
  predicate Paired(m: seq<Meta>)
  {
    && DistinctKeys(m)
    && forall i {:trigger HasMate(m, i)} :: 0 <= i < |m| && Alternate(m[i].key).Some? ==> HasMate(m, i)
  }

  predicate HasMate(m: seq<Meta>, i: nat)
    requires i < |m|
  {
    (i > 0 && Mates(m, i, i - 1)) || (i + 1 < |m| && Mates(m, i, i + 1))
  }

  /** Cutting the list after `k` entries separates no pair. */
  predicate Boundary(m: seq<Meta>, k: nat)
  {
    k <= |m| && (0 < k < |m| ==> !Mates(m, k - 1, k))
  }

  lemma MatesSymmetric(m: seq<Meta>, i: nat, j: nat)
    requires i < |m| && j < |m|
    ensures Mates(m, i, j) <==> Mates(m, j, i)
  {
    AlternateInvolutive(m[i].key);
    AlternateInvolutive(m[j].key);
  }

  /** The mate of an entry is in the list. */
  lemma MateIndex(m: seq<Meta>, j: nat, key: Key)
    requires Paired(m) && j < |m| && Alternate(m[j].key) == Some(key)
    ensures IndexOf(m, key) < |m|
  {
    hide Alternate, IndexOf;
    assert HasMate(m, j);
    if j > 0 && Mates(m, j, j - 1) {
      assert m[j - 1].key == key;
    } else {
      assert m[j + 1].key == key;
    }
  }

  lemma MateAbsent(m: seq<Meta>, key: Key)
    requires Paired(m) && IndexOf(m, key) == |m| && Alternate(key).Some?
    ensures IndexOf(m, Alternate(key).value) == |m|
  {
    hide Alternate, IndexOf;
    AlternateInvolutive(key);
    var j := IndexOf(m, Alternate(key).value);
    if j < |m| { MateIndex(m, j, key); }
  }

  /** A key that is not there yet goes to the end, with its alternate. */
  lemma AddedAtEnd(m: seq<Meta>, key: Key, value: seq<byte>)
    requires Paired(m) && IndexOf(m, key) == |m|
    ensures var a := Alternate(key);
            Add(m, key, value, true) == if a.Some? then m + [Meta(key, value), Meta(a.value, value)] else m + [Meta(key, value)]
    ensures Alternate(key).Some? ==> IndexOf(m, Alternate(key).value) == |m|
  {
    hide Alternate, IndexOf, Paired;
    AlternateInvolutive(key);
    if Alternate(key).Some? {
      MateAbsent(m, key);
      assert IndexOf(SetValue(m, key, value), Alternate(key).value) == |m| + 1;
    }
  }

  lemma AppendKeepsPairs(m: seq<Meta>, key: Key, value: seq<byte>)
    requires Paired(m) && IndexOf(m, key) == |m|
    ensures var r := Add(m, key, value, true); |r| >= |m| && Paired(r) && r[..|m|] == m && Boundary(r, |m|)
  {
    hide Alternate, IndexOf, Add;
    AddedAtEnd(m, key, value);
    AlternateInvolutive(key);
    var r := Add(m, key, value, true);
    forall j | 0 <= j < |r| && Alternate(r[j].key).Some? ensures HasMate(r, j) {
      if j < |m| { assert HasMate(m, j); }
      if j == |m| { assert Mates(r, j, j + 1); }
      if j == |m| + 1 { assert Mates(r, j, j - 1); }
    }
    if |m| > 0 && Mates(r, |m| - 1, |m|) {
      MateIndex(m, |m| - 1, key);
    }
  }

  lemma OverrideKeepsPairs(m: seq<Meta>, key: Key, value: seq<byte>)
    requires Paired(m) && IndexOf(m, key) < |m|
    ensures var r := Add(m, key, value, true); Paired(r) && |r| == |m| && forall i :: 0 <= i < |m| ==> r[i].key == m[i].key
  {
    hide Alternate, IndexOf, Paired;
    AlternateInvolutive(key);
    var a, i, l := Alternate(key), IndexOf(m, key), SetValue(m, key, value);
    if a.Some? {
      MateIndex(m, i, a.value);
      var j := IndexOf(m, a.value);
      assert l[j].key == a.value;
      assert IndexOf(l, a.value) < |l|;
    }
    PairedByKeys(m, Add(m, key, value, true));
  }

  /** Adding a user's key keeps the pairs together and cuts none of the earlier boundaries. */
  lemma AddKeepsPairs(m: seq<Meta>, key: Key, value: seq<byte>)
    requires Paired(m)
    ensures var r := Add(m, key, value, true);
            && Paired(r) && |r| >= |m|
            && (forall i :: 0 <= i < |m| ==> r[i].key == m[i].key)
            && (IndexOf(m, key) < |m| ==> |r| == |m|)
            && (IndexOf(m, key) == |m| ==> r[..|m|] == m && Boundary(r, |m|))
  {
    hide Alternate, IndexOf, Paired, Add, Boundary;
    var r := Add(m, key, value, true);
    if IndexOf(m, key) < |m| {
      OverrideKeepsPairs(m, key, value);
    } else {
      AppendKeepsPairs(m, key, value);
      forall i | 0 <= i < |m| ensures r[i].key == m[i].key { assert r[..|m|][i] == r[i]; }
    }
  }

  lemma PairedByKeys(m: seq<Meta>, r: seq<Meta>)
    requires Paired(m) && |r| == |m| && forall i :: 0 <= i < |m| ==> r[i].key == m[i].key
    ensures Paired(r)
  {
    forall j | 0 <= j < |r| && Alternate(r[j].key).Some? ensures HasMate(r, j) {
      assert HasMate(m, j);
    }
  }

  /** Adding the entries of a list one by one, as replay does. */
  function AddAll(list: seq<Meta>, more: seq<Meta>): seq<Meta>
    decreases |more|
  {
    if more == [] then list else AddAll(Add(list, more[0].key, more[0].value, true), more[1..])
  }

  /** `c` holds the keys of the first entries of `m` up to a boundary, and the values of the first `s`. */
  predicate UpTo(c: seq<Meta>, m: seq<Meta>, s: nat)
  {
    && s <= |c| <= |m| && Boundary(m, |c|)
    && (forall i :: 0 <= i < |c| ==> c[i].key == m[i].key)
    && (forall i :: 0 <= i < s ==> c[i] == m[i])
  }

  lemma LaterKeyAbsent(c: seq<Meta>, m: seq<Meta>, t: nat)
    requires DistinctKeys(m) && |c| <= t < |m| && forall i :: 0 <= i < |c| ==> c[i].key == m[i].key
    ensures IndexOf(c, m[t].key) == |c|
  {
    assert forall i :: 0 <= i < |c| ==> c[i].key == m[i].key != m[t].key;
  }

  /** The mate of an entry before a boundary is before it too. */
  lemma MateInside(m: seq<Meta>, k: nat, i: nat, j: nat)
    requires Boundary(m, k) && i < k && j < |m| && (i == j + 1 || j == i + 1) && Mates(m, i, j)
    ensures j < k
  {
    hide Alternate;
  }

  lemma ReplayOverride(c: seq<Meta>, m: seq<Meta>, s: nat)
    requires Paired(m) && UpTo(c, m, s) && s < |c|
    ensures UpTo(Add(c, m[s].key, m[s].value, true), m, s + 1)
  {
    hide Alternate, IndexOf;
    var key := m[s].key;
    AlternateInvolutive(key);
    assert IndexOf(c, key) == s;
    var l := SetValue(c, key, m[s].value);
    assert m[s] == Meta(key, m[s].value) && l == c[s := m[s]];
    if Alternate(key).Some? {
      assert HasMate(m, s);
      var j := if s > 0 && Mates(m, s, s - 1) then s - 1 else s + 1;
      assert Mates(m, s, j);
      MateInside(m, |c|, s, j);
      assert l[j].key == Alternate(key).value;
      assert IndexOf(l, Alternate(key).value) < |l|;
    }
  }

  lemma ReplayAppend(c: seq<Meta>, m: seq<Meta>, s: nat)
    requires Paired(m) && UpTo(c, m, s) && s == |c| < |m|
    ensures UpTo(Add(c, m[s].key, m[s].value, true), m, s + 1)
  {
    hide Alternate, IndexOf;
    var key := m[s].key;
    LaterKeyAbsent(c, m, s);
    var l := SetValue(c, key, m[s].value);
    assert m[s] == Meta(key, m[s].value) && l == c + [m[s]];
    if Alternate(key).Some? {
      if s > 0 { MatesSymmetric(m, s - 1, s); }
      assert HasMate(m, s) && Mates(m, s, s + 1);
      LaterKeyAbsent(l, m, s + 1);
      if s + 2 < |m| { MatesSymmetric(m, s + 1, s); }
    } else {
      if s + 1 < |m| { MatesSymmetric(m, s, s + 1); }
    }
  }

  /** One replayed entry: overridden if it is there, appended with its mate if it is not. */
  lemma ReplayOne(c: seq<Meta>, m: seq<Meta>, s: nat)
    requires Paired(m) && UpTo(c, m, s) && s < |m|
    ensures UpTo(Add(c, m[s].key, m[s].value, true), m, s + 1)
  {
    hide UpTo, Paired, Add;
    if s < |c| {
      ReplayOverride(c, m, s);
    } else {
      assert s == |c| by { UpToLength(c, m, s); }
      ReplayAppend(c, m, s);
    }
  }

  lemma UpToLength(c: seq<Meta>, m: seq<Meta>, s: nat)
    requires UpTo(c, m, s)
    ensures s <= |c| <= |m|
  {
  }

  /** Replaying the entries from any journalled point on rebuilds the whole list. */
  lemma {:induction false} ReplayMetas(c: seq<Meta>, m: seq<Meta>, s: nat)
    requires Paired(m) && UpTo(c, m, s)
    ensures AddAll(c, m[s..]) == m
    decreases |m| - s
  {
    if s == |m| {
      assert c == m && m[s..] == [];
    } else {
      ReplayOne(c, m, s);
      assert m[s..][0] == m[s] && m[s..][1..] == m[s + 1..];
      ReplayMetas(Add(c, m[s].key, m[s].value, true), m, s + 1);
    }
  }
}
