/**
 The order of the tracks in a file: by type, enabled tracks first within a type,
 and otherwise as before.
 */
module TrackOrder {
  import opened Bytes
  import opened JournalFormat
  import opened MuxTrack

  const TRACK_FLAG_ENABLED: nat := 1

  /** Priorities 0 to 5; hint (2) and text (4) tracks cannot be added. */
  function Priority(kind: TrackType): nat
  {
    match kind
    case Video => 0
    case Audio => 1
    case Timed => 3
    case Chapters => 5
  }

  function Enabled(t: Track): bool { t.info.flags % 2 == TRACK_FLAG_ENABLED }

  /** The number of the pass that takes the track: two passes for each priority. */
  function Rank(t: Track): (r: nat)
    ensures r < PASSES
  {
    2 * Priority(t.info.kind) + if Enabled(t) then 0 else 1
  }

  const PASSES: nat := 12

  /** The tracks of one rank, in order. */
  function Pick(ts: seq<Track>, r: nat): seq<Track>
  {
    if ts == [] then []
    else Pick(ts[..|ts| - 1], r) + if Rank(ts[|ts| - 1]) == r then [ts[|ts| - 1]] else []
  }

  /** The tracks the first `r` passes leave, in order. */
  function Left(ts: seq<Track>, r: nat): seq<Track>
  {
    if ts == [] then []
    else Left(ts[..|ts| - 1], r) + if Rank(ts[|ts| - 1]) >= r then [ts[|ts| - 1]] else []
  }

  /** The tracks the first `r` passes take, rank after rank. */
  function Taken(ts: seq<Track>, r: nat): seq<Track>
  {
    if r == 0 then [] else Taken(ts, r - 1) + Pick(ts, r - 1)
  }

  function Sorted(ts: seq<Track>): seq<Track>
  {
    Taken(ts, PASSES)
  }

  lemma {:induction false} PickAppend(a: seq<Track>, b: seq<Track>, r: nat)
    ensures Pick(a + b, r) == Pick(a, r) + Pick(b, r)
  {
    hide Rank;
    if b == [] {
      assert a + b == a;
    } else {
      var init := b[..|b| - 1];
      assert (a + b)[..|a + b| - 1] == a + init;
      PickAppend(a, init, r);
    }
  }

  lemma PickOne(x: Track, r: nat)
    ensures Pick([x], r) == if Rank(x) == r then [x] else []
  {
    hide Rank;
    assert [x][..0] == [];
  }

  lemma {:induction false} PickOfPick(ts: seq<Track>, q: nat, r: nat)
    ensures Pick(Pick(ts, q), r) == if q == r then Pick(ts, r) else []
  {
    hide Rank;
    if ts != [] {
      var init, x := ts[..|ts| - 1], ts[|ts| - 1];
      PickOfPick(init, q, r);
      if Rank(x) == q {
        PickAppend(Pick(init, q), [x], r);
        PickOne(x, r);
      } else {
        assert Pick(ts, q) == Pick(init, q);
        if q == r { assert Pick(ts, r) == Pick(init, r); }
      }
    }
  }

  lemma PickEmpty(r: nat)
    ensures Pick([], r) == []
  {
  }

  lemma {:induction false} PickOfTaken(ts: seq<Track>, n: nat, r: nat)
    ensures Pick(Taken(ts, n), r) == if r < n then Pick(ts, r) else []
  {
    hide Rank, Pick;
    PickEmpty(r);
    if n > 0 {
      PickOfTaken(ts, n - 1, r);
      PickAppend(Taken(ts, n - 1), Pick(ts, n - 1), r);
      PickOfPick(ts, n - 1, r);
    }
  }

  /** Stable: the tracks of each rank keep their order. */
  lemma SortIsStable(ts: seq<Track>, r: nat)
    requires r < PASSES
    ensures Pick(Sorted(ts), r) == Pick(ts, r)
  {
    hide Rank, Taken, Pick;
    PickOfTaken(ts, PASSES, r);
  }

  lemma {:induction false} TakenByRanks(a: seq<Track>, b: seq<Track>, n: nat)
    requires forall r :: 0 <= r < n ==> Pick(a, r) == Pick(b, r)
    ensures Taken(a, n) == Taken(b, n)
  {
    hide Rank;
    if n > 0 { TakenByRanks(a, b, n - 1); }
  }

  lemma SortedByRanks(a: seq<Track>, b: seq<Track>)
    requires forall r :: 0 <= r < PASSES ==> Pick(a, r) == Pick(b, r)
    ensures Sorted(a) == Sorted(b)
  {
    hide Rank, Pick;
    TakenByRanks(a, b, PASSES);
  }

  /** Sorting what is sorted changes nothing. */
  lemma SortTwice(ts: seq<Track>)
    ensures Sorted(Sorted(ts)) == Sorted(ts)
  {
    hide Rank, Sorted, Pick;
    forall r | 0 <= r < PASSES ensures Pick(Sorted(ts), r) == Pick(ts, r) {
      SortIsStable(ts, r);
    }
    SortedByRanks(Sorted(ts), ts);
  }

  lemma {:induction false} PickRank(ts: seq<Track>, r: nat)
    ensures forall i :: 0 <= i < |Pick(ts, r)| ==> Rank(Pick(ts, r)[i]) == r
  {
    hide Rank;
    if ts != [] { PickRank(ts[..|ts| - 1], r); }
  }

  predicate Ordered(ts: seq<Track>)
  {
    forall i, j :: 0 <= i < j < |ts| ==> Rank(ts[i]) <= Rank(ts[j])
  }

  lemma {:induction false} TakenOrdered(ts: seq<Track>, n: nat)
    ensures Ordered(Taken(ts, n))
    ensures forall i :: 0 <= i < |Taken(ts, n)| ==> Rank(Taken(ts, n)[i]) < n
  {
    hide Rank;
    if n > 0 {
      TakenOrdered(ts, n - 1);
      PickRank(ts, n - 1);
    }
  }

  lemma {:induction false} LeftSplits(ts: seq<Track>, r: nat)
    ensures multiset(Left(ts, r)) == multiset(Pick(ts, r)) + multiset(Left(ts, r + 1))
  {
    hide Rank;
    if ts != [] {
      LeftSplits(ts[..|ts| - 1], r);
    }
  }

  lemma {:induction false} LeftEnds(ts: seq<Track>)
    ensures Left(ts, 0) == ts && Left(ts, PASSES) == []
  {
    hide Rank;
    if ts != [] {
      LeftEnds(ts[..|ts| - 1]);
      assert ts == ts[..|ts| - 1] + [ts[|ts| - 1]];
    }
  }

  lemma {:induction false} TakenAndLeft(ts: seq<Track>, r: nat)
    ensures multiset(Taken(ts, r)) + multiset(Left(ts, r)) == multiset(ts)
  {
    hide Rank, Pick, Left;
    if r == 0 {
      LeftEnds(ts);
      assert multiset(Taken(ts, 0)) == multiset{};
    } else {
      TakenAndLeft(ts, r - 1);
      LeftSplits(ts, r - 1);
      assert multiset(Taken(ts, r)) == multiset(Taken(ts, r - 1)) + multiset(Pick(ts, r - 1));
    }
  }

  /** A permutation, by rank, keeping the order within each rank. */
  predicate IsSorting(ts: seq<Track>, out: seq<Track>)
  {
    Ordered(out) && multiset(out) == multiset(ts) && forall r :: 0 <= r < PASSES ==> Pick(out, r) == Pick(ts, r)
  }

  lemma SortedHas(ts: seq<Track>)
    ensures IsSorting(ts, Sorted(ts))
  {
    hide Rank, Pick, Taken, Left;
    TakenOrdered(ts, PASSES);
    TakenAndLeft(ts, PASSES);
    LeftEnds(ts);
    assert multiset(Left(ts, PASSES)) == multiset{};
    assert multiset(Taken(ts, PASSES)) + multiset{} == multiset(Taken(ts, PASSES));
    forall r | 0 <= r < PASSES ensures Pick(Sorted(ts), r) == Pick(ts, r) {
      SortIsStable(ts, r);
    }
  }

  /** The sorted list is the only list that is a stable sorting by rank. */
  lemma SortedSpec(ts: seq<Track>, out: seq<Track>)
    ensures out == Sorted(ts) <==> IsSorting(ts, out)
  {
    hide Rank, Sorted, Ordered;
    SortedHas(ts);
    if IsSorting(ts, out) {
      OrderedIsSorted(out);
      SortedByRanks(out, ts);
    }
  }

  // ---------- the order, without ranks ----------

  predicate IsEnabled(t: Track)
  {
    t.info.flags % 2 == 1
  }

  /** Video before audio before timed metadata before chapters, and enabled tracks before the others of their type. */
  predicate Before(t: Track, u: Track)
  {
    if t.info.kind == u.info.kind then IsEnabled(u) ==> IsEnabled(t)
    else t.info.kind.Video? || u.info.kind.Chapters? || (t.info.kind.Audio? && u.info.kind.Timed?)
  }

  predicate InFileOrder(ts: seq<Track>)
  {
    forall i, j :: 0 <= i < j < |ts| ==> Before(ts[i], ts[j])
  }

  predicate Alike(t: Track, u: Track)
  {
    t.info.kind == u.info.kind && (IsEnabled(t) <==> IsEnabled(u))
  }

  predicate Precedes(ts: seq<Track>, t: Track, u: Track)
  {
    exists i, j :: 0 <= i < j < |ts| && ts[i] == t && ts[j] == u
  }

  /** Of two tracks of the same type that are both enabled or both not, the one that came first still does. */
  ghost predicate SameOrder(ts: seq<Track>, out: seq<Track>)
  {
    forall t, u | t in ts && u in ts && Alike(t, u) :: Precedes(out, t, u) <==> Precedes(ts, t, u)
  }

  lemma RankOrders(t: Track, u: Track)
    ensures Rank(t) <= Rank(u) ==> Before(t, u)
    ensures Rank(t) == Rank(u) <==> Alike(t, u)
  {
  }

  lemma {:induction false} PickMembers(ts: seq<Track>, r: nat, t: Track)
    ensures t in Pick(ts, r) <==> t in ts && Rank(t) == r
  {
    hide Rank;
    if ts != [] { PickMembers(ts[..|ts| - 1], r, t); }
  }

  lemma PrecedesLast(ts: seq<Track>, x: Track, t: Track, u: Track)
    ensures Precedes(ts + [x], t, u) <==> Precedes(ts, t, u) || (x == u && t in ts)
  {
    var all := ts + [x];
    if Precedes(ts, t, u) {
      var i, j :| 0 <= i < j < |ts| && ts[i] == t && ts[j] == u;
      assert all[i] == t && all[j] == u;
    }
    if x == u && t in ts {
      var i :| 0 <= i < |ts| && ts[i] == t;
      assert all[i] == t && all[|ts|] == u;
    }
    if Precedes(all, t, u) {
      var i, j :| 0 <= i < j < |all| && all[i] == t && all[j] == u;
      assert ts[i] == t;
      if j < |ts| { assert ts[j] == u; }
    }
  }

  lemma {:induction false} PickPrecedes(ts: seq<Track>, r: nat, t: Track, u: Track)
    requires Rank(t) == Rank(u) == r
    ensures Precedes(Pick(ts, r), t, u) <==> Precedes(ts, t, u)
  {
    hide Rank, Precedes;
    if ts == [] {
      NonePrecedes(t, u);
    } else {
      var init, x := ts[..|ts| - 1], ts[|ts| - 1];
      PickPrecedes(init, r, t, u);
      PickMembers(init, r, t);
      PrecedesLast(init, x, t, u);
      assert ts == init + [x];
      if Rank(x) == r { PrecedesLast(Pick(init, r), x, t, u); } else { assert Pick(ts, r) == Pick(init, r); }
    }
  }

  lemma NonePrecedes(t: Track, u: Track)
    ensures !Precedes([], t, u)
  {
  }

  /** The sorted list is in this order, and keeps the order there was where that leaves a choice. */
  lemma SortedOrder(ts: seq<Track>)
    ensures InFileOrder(Sorted(ts)) && SameOrder(ts, Sorted(ts)) && multiset(Sorted(ts)) == multiset(ts)
  {
    hide Rank, Pick, Taken, Precedes, Sorted, Before, Alike;
    SortedHas(ts);
    var out := Sorted(ts);
    forall i, j | 0 <= i < j < |out| ensures Before(out[i], out[j]) {
      RankOrders(out[i], out[j]);
    }
    forall t, u | t in ts && u in ts && Alike(t, u) ensures Precedes(out, t, u) <==> Precedes(ts, t, u) {
      RankOrders(t, u);
      SortIsStable(ts, Rank(t));
      PickPrecedes(out, Rank(t), t, u);
      PickPrecedes(ts, Rank(t), t, u);
    }
  }

  /** A list in order is the list of its picks. */
  lemma OrderedIsSorted(ts: seq<Track>)
    requires Ordered(ts)
    ensures Sorted(ts) == ts
  {
    hide Rank, Taken;
    OrderedIsTaken(ts, PASSES);
  }

  lemma {:induction false} OrderedIsTaken(ts: seq<Track>, n: nat)
    requires Ordered(ts) && forall i :: 0 <= i < |ts| ==> Rank(ts[i]) < n
    ensures Taken(ts, n) == ts
  {
    hide Rank, Taken;
    if ts != [] {
      var init, x := ts[..|ts| - 1], ts[|ts| - 1];
      OrderedIsTaken(init, n);
      assert ts == init + [x];
      TakenSnoc(init, x, n);
    } else {
      TakenEmpty(n);
    }
  }

  lemma {:induction false} TakenEmpty(n: nat)
    ensures Taken([], n) == []
  {
    hide Rank;
    if n > 0 { TakenEmpty(n - 1); }
  }

  lemma {:induction false} PickNone(ts: seq<Track>, r: nat)
    requires forall i :: 0 <= i < |ts| ==> Rank(ts[i]) != r
    ensures Pick(ts, r) == []
  {
    hide Rank;
    if ts != [] { PickNone(ts[..|ts| - 1], r); }
  }

  lemma {:induction false} TakenSnoc(ts: seq<Track>, x: Track, n: nat)
    requires Ordered(ts + [x])
    ensures Taken(ts + [x], n) == if Rank(x) < n then Taken(ts, n) + [x] else Taken(ts, n)
  {
    hide Rank, Pick;
    if n > 0 {
      TakenSnoc(ts, x, n - 1);
      PickSnoc(ts, x, n - 1);
      if Rank(x) < n - 1 { PickNoneOrdered(ts, x, n - 1); }
    }
  }

  lemma PickSnoc(ts: seq<Track>, x: Track, r: nat)
    ensures Pick(ts + [x], r) == Pick(ts, r) + if Rank(x) == r then [x] else []
  {
    hide Rank;
    assert (ts + [x])[..|ts|] == ts;
  }

  lemma PickNoneOrdered(ts: seq<Track>, x: Track, r: nat)
    requires Ordered(ts + [x]) && Rank(x) < r
    ensures Pick(ts, r) == []
  {
    hide Rank, Pick;
    forall i | 0 <= i < |ts| ensures Rank(ts[i]) != r {
      assert (ts + [x])[i] == ts[i] && (ts + [x])[|ts|] == x;
    }
    PickNone(ts, r);
  }

  lemma {:induction false} LeftLater(ts: seq<Track>, r: nat)
    ensures Pick(Left(ts, r), r) == Pick(ts, r) && Left(Left(ts, r), r + 1) == Left(ts, r + 1)
    ensures forall i :: 0 <= i < |Left(ts, r)| ==> Rank(Left(ts, r)[i]) >= r
  {
    hide Rank;
    if ts != [] {
      var init, x := ts[..|ts| - 1], ts[|ts| - 1];
      LeftLater(init, r);
      if Rank(x) >= r {
        assert Left(ts, r) == Left(init, r) + [x] && Left(ts, r)[..|Left(init, r)|] == Left(init, r);
      } else {
        assert Left(ts, r) == Left(init, r);
      }
    }
  }

  /** Track `i` of the new list has number `i + 1`. */
  ghost predicate Numbered(ts: seq<Track>)
    reads ts`id
  {
    forall i :: 0 <= i < |ts| ==> ts[i].id == i + 1
  }

  ghost predicate NoTwice(a: seq<Track>, b: seq<Track>)
  {
    && (forall i, j :: 0 <= i < j < |a| ==> a[i] != a[j])
    && (forall i, j :: 0 <= i < j < |b| ==> b[i] != b[j])
    && (forall i, j :: 0 <= i < |a| && 0 <= j < |b| ==> a[i] != b[j])
  }

  /** One track moves to the end of the new list. */
  method Take(ts: seq<Track>, first: seq<Track>, k: nat) returns (rest: seq<Track>, out: seq<Track>)
    requires k < |ts|
    requires NoTwice(ts, first) && Numbered(first)
    modifies {ts[k]}`id
    ensures rest == ts[..k] + ts[k + 1..] && out == first + [ts[k]]
    ensures NoTwice(rest, out) && Numbered(out)
  {
    var t := ts[k];
    assert forall i :: 0 <= i < |first| ==> first[i] != t;
    t.id := |first| + 1;
    rest, out := ts[..k] + ts[k + 1..], first + [t];
    assert forall i :: 0 <= i < |rest| ==> rest[i] == if i < k then ts[i] else ts[i + 1];
  }

  /** What is left of the list in the middle of a pass. */
  lemma PassStep(ts: seq<Track>, m: nat, r: nat)
    requires m < |ts| && Rank(ts[m]) >= r
    ensures Left(ts[..m + 1], r + 1) == Left(ts[..m], r + 1) + if Rank(ts[m]) == r then [] else [ts[m]]
    ensures Pick(ts[..m + 1], r) == Pick(ts[..m], r) + if Rank(ts[m]) == r then [ts[m]] else []
    ensures ts[m..] == [ts[m]] + ts[m + 1..]
  {
    hide Rank;
    assert ts[..m + 1][..m] == ts[..m];
  }

  lemma PassEnds(ts: seq<Track>, r: nat)
    ensures ts[..0] == [] && ts[..|ts|] == ts && Left(ts[..0], r) == [] && Pick(ts[..0], r) == []
  {
  }

  lemma AtSplit<T>(a: seq<T>, x: T, b: seq<T>)
    ensures var s := a + ([x] + b);
            && s[|a|] == x && s[..|a|] + s[|a| + 1..] == a + b && s == (a + [x]) + b && a + [] == a
  {
  }

  /** One pass: the tracks of a rank leave the list, get the next numbers, and join the new list. */
  method Pass(ts: seq<Track>, first: seq<Track>, r: nat) returns (rest: seq<Track>, out: seq<Track>)
    requires NoTwice(ts, first) && Numbered(first)
    requires forall i :: 0 <= i < |ts| ==> Rank(ts[i]) >= r
    modifies ts`id
    ensures rest == Left(ts, r + 1) && out == first + Pick(ts, r)
    ensures NoTwice(rest, out) && Numbered(out)
  {
    hide Rank, Left, Pick, NoTwice, Numbered;
    rest, out := ts, first;
    var k: nat := 0;
    PassEnds(ts, r);
    PassEnds(ts, r + 1);
    for m := 0 to |ts|
      invariant k == |Left(ts[..m], r + 1)|
      invariant rest == Left(ts[..m], r + 1) + ts[m..]
      invariant out == first + Pick(ts[..m], r)
      invariant NoTwice(rest, out) && Numbered(out)
    {
      PassStep(ts, m, r);
      AtSplit(Left(ts[..m], r + 1), ts[m], ts[m + 1..]);
      if Rank(rest[k]) == r {
        rest, out := Take(rest, out, k);
      } else {
        k := k + 1;
      }
    }
  }

  /** All the passes: the sorted list, numbered from 1. */
  method SortTracks(tracks: seq<Track>) returns (out: seq<Track>)
    requires NoTwice(tracks, [])
    modifies tracks`id
    ensures out == Sorted(tracks) && Numbered(out) && NoTwice(out, [])
    ensures InFileOrder(out) && SameOrder(tracks, out)
  {
    hide Rank, Taken, Pick, Left, InFileOrder, SameOrder;
    SortedOrder(tracks);
    var rest := tracks;
    out := [];
    StartOfSort(tracks);
    for r := 0 to PASSES
      invariant rest == Left(tracks, r) && out == Taken(tracks, r)
      invariant NoTwice(rest, out) && Numbered(out)
      invariant forall i :: 0 <= i < |rest| ==> rest[i] in tracks
    {
      LeftLater(tracks, r);
      LeftMembers(tracks, r + 1);
      TakenNext(tracks, r);
      rest, out := Pass(rest, out, r);
    }
  }

  lemma StartOfSort(ts: seq<Track>)
    ensures Left(ts, 0) == ts && Taken(ts, 0) == []
  {
    LeftEnds(ts);
  }

  lemma TakenNext(ts: seq<Track>, r: nat)
    ensures Taken(ts, r + 1) == Taken(ts, r) + Pick(ts, r)
  {
  }

  lemma {:induction false} LeftMembers(ts: seq<Track>, r: nat)
    ensures forall i :: 0 <= i < |Left(ts, r)| ==> Left(ts, r)[i] in ts
  {
    hide Rank;
    if ts != [] { LeftMembers(ts[..|ts| - 1], r); }
  }
}
