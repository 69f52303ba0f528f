/**
 What the sample searches of the demuxer look for, stated over the decoding times
 and the sync sample entries alone (section 8.6.2 of ISO/IEC 14496-12).
 */
module Search {
  import opened Bytes
  import opened Wrappers

  datatype TimeCmp = Exact | Nearest | Less | LessEq | Greater | GreaterEq

  datatype SeekMethod = Previous | PreviousSync | NearestSample | NearestSync | Next | NextSync

  /** Without a sync sample table every sample is a sync sample. */
  predicate IsSync(sync: Option<seq<u32>>, i: nat)
  {
    sync.None? || i + 1 in sync.value
  }

  predicate SortedSync(sync: Option<seq<u32>>)
  {
    sync.Some? ==>
      && (forall i :: 0 <= i < |sync.value| ==> 1 <= sync.value[i])
      && (forall i, j :: 0 <= i < j < |sync.value| ==> sync.value[i] < sync.value[j])
  }

  predicate NonDecreasing(times: seq<u64>)
  {
    forall i, j :: 0 <= i < j < |times| ==> times[i] <= times[j]
  }

  predicate Increasing(times: seq<u64>)
  {
    forall i, j :: 0 <= i < j < |times| ==> times[i] < times[j]
  }

  predicate Matches(cmp: TimeCmp, sample: u64, time: u64)
  {
    match cmp
    case Exact => sample == time
    case Nearest => true
    case Less => sample < time
    case LessEq => sample <= time
    case Greater => sample > time
    case GreaterEq => sample >= time
  }

  /** A sample the search may return: of the right kind and on the right side of the time. */
  predicate Candidate(times: seq<u64>, sync: Option<seq<u32>>, cmp: TimeCmp, time: u64, syncOnly: bool, i: nat)
  {
    i < |times| && Matches(cmp, times[i], time) && (syncOnly ==> IsSync(sync, i))
  }

  /** What a comparison asks for. */
  lemma MatchesMeans(sample: u64, time: u64)
    ensures (Matches(Exact, sample, time) <==> sample == time) && Matches(Nearest, sample, time)
    ensures (Matches(Less, sample, time) <==> sample < time) && (Matches(LessEq, sample, time) <==> sample <= time)
    ensures (Matches(Greater, sample, time) <==> sample > time) && (Matches(GreaterEq, sample, time) <==> sample >= time)
  {
  }

  function Distance(a: int, b: int): nat { if a <= b then b - a else a - b }

  /** The larger of the two differences. */
  lemma DistanceMeans(a: int, b: int)
    ensures Distance(a, b) == Max(a - b, b - a)
  {
  }

  /** The clamped start index: a negative one means the end for the backward searches. */
  function ClampStart(count: nat, cmp: TimeCmp, start: int): int
  {
    if start < 0 then (if cmp.Less? || cmp.LessEq? then count - 1 else 0)
    else if start >= count then count - 1
    else start
  }

  /** The greatest candidate up to `s`, if there is one. */
  ghost predicate LastUpTo(times: seq<u64>, sync: Option<seq<u32>>, cmp: TimeCmp, time: u64, syncOnly: bool, s: nat, r: Option<nat>)
  {
    match r
    case Some(m) =>
      && m <= s && Candidate(times, sync, cmp, time, syncOnly, m)
      && forall i :: m < i <= s ==> !Candidate(times, sync, cmp, time, syncOnly, i)
    case None => forall i :: 0 <= i <= s ==> !Candidate(times, sync, cmp, time, syncOnly, i)
  }

  /** The least candidate from `s` on, if there is one. */
  ghost predicate FirstFrom(times: seq<u64>, sync: Option<seq<u32>>, cmp: TimeCmp, time: u64, syncOnly: bool, s: nat, r: Option<nat>)
  {
    match r
    case Some(m) =>
      && s <= m && Candidate(times, sync, cmp, time, syncOnly, m)
      && forall i :: s <= i < m ==> !Candidate(times, sync, cmp, time, syncOnly, i)
    case None => forall i :: s <= i < |times| ==> !Candidate(times, sync, cmp, time, syncOnly, i)
  }

  /** A sample from `s` on whose time is as close as that of any other candidate. */
  ghost predicate ClosestFrom(times: seq<u64>, sync: Option<seq<u32>>, time: u64, syncOnly: bool, s: nat, r: Option<nat>)
  {
    match r
    case Some(m) =>
      && s <= m && Candidate(times, sync, Nearest, time, syncOnly, m)
      && forall i :: s <= i && Candidate(times, sync, Nearest, time, syncOnly, i) ==> Distance(times[m], time) <= Distance(times[i], time)
    case None => forall i :: s <= i < |times| ==> !Candidate(times, sync, Nearest, time, syncOnly, i)
  }

  /** The result of a search from the clamped index `s`. */
  ghost predicate Found(times: seq<u64>, sync: Option<seq<u32>>, cmp: TimeCmp, time: u64, syncOnly: bool, s: nat, r: Option<nat>)
  {
    match cmp
    case Less => LastUpTo(times, sync, cmp, time, syncOnly, s, r)
    case LessEq => LastUpTo(times, sync, cmp, time, syncOnly, s, r)
    case Nearest => ClosestFrom(times, sync, time, syncOnly, s, r)
    case _ => FirstFrom(times, sync, cmp, time, syncOnly, s, r)
  }

  // ---------- where a seek settles ----------

  /** From a start index, among samples of equal times: the first from there on that has the time, or else the last of those that are not later. */
  predicate SettledFrom(times: seq<u64>, target: u64, start: nat, i: nat)
  {
    && i < |times|
    && if exists j :: start <= j < |times| && times[j] == target
       then start <= i && times[i] == target && forall j :: start <= j < i ==> times[j] != target
       else times[i] <= target && forall j :: i < j < |times| ==> times[j] > target
  }

  /** The sample a seek settles on: none at or before the target is later. */
  predicate Settled(times: seq<u64>, target: u64, i: nat)
  {
    && i < |times| && times[i] <= target
    && forall j :: 0 <= j < |times| && times[j] <= target ==> times[j] <= times[i]
  }

  /** With strictly increasing times there is exactly one such sample, whatever the scan started from. */
  lemma SettledUnique(times: seq<u64>, target: u64, i: nat, j: nat)
    requires Increasing(times) && Settled(times, target, i) && Settled(times, target, j)
    ensures i == j
    ensures forall k :: i < k < |times| ==> times[k] > target
  {
  }

  /** With equal times the settled index is not determined: both samples qualify. */
  lemma SettledNeedsDistinctTimes()
    ensures exists times: seq<u64>, i, j ::
      NonDecreasing(times) && Settled(times, 0, i) && Settled(times, 0, j) && i != j
  {
    var times: seq<u64> := [0, 0];
    assert NonDecreasing(times) && Settled(times, 0, 0) && Settled(times, 0, 1);
  }

  /** The settled index is the same for every start exactly when no two samples share its time. */
  lemma SettledDetermined(times: seq<u64>, target: u64, i: nat)
    requires Settled(times, target, i)
    ensures (forall j :: Settled(times, target, j) ==> j == i)
            <==> (forall j :: 0 <= j < |times| && times[j] == times[i] ==> j == i)
  {
    if forall j :: Settled(times, target, j) ==> j == i {
      forall j | 0 <= j < |times| && times[j] == times[i] ensures j == i {
        assert Settled(times, target, j);
      }
    }
  }

  /** The settled sample exists as soon as the first time is not after the target. */
  lemma {:induction false} SettledExists(times: seq<u64>, target: u64) returns (i: nat)
    requires NonDecreasing(times) && times != [] && times[0] <= target
    ensures Settled(times, target, i)
  {
    i := |times| - 1;
    while times[i] > target
      invariant i < |times|
      invariant forall j :: i < j < |times| ==> times[j] > target
      decreases i
    {
      i := i - 1;
    }
  }

  // ---------- where a seek lands ----------

  /** The sample a seek method picks once it has settled on `i`. */
  ghost predicate Lands(times: seq<u64>, sync: Option<seq<u32>>, target: u64, how: SeekMethod, i: nat, r: Option<nat>)
    requires i < |times|
  {
    match how
    case Previous => r == Some(i)
    case PreviousSync =>
      if exists j :: 0 <= j <= i && IsSync(sync, j) then Found(times, sync, LessEq, times[i], true, i, r)
      else Found(times, sync, Greater, times[i], true, i, r)
    case NearestSample => Found(times, sync, Nearest, target, false, i, r)
    case NearestSync => Found(times, sync, Nearest, target, true, i, r)
    case Next => Found(times, sync, Greater, times[i], false, i, r)
    case NextSync => Found(times, sync, Greater, times[i], true, i, r)
  }

  /** With increasing times, "previous sync" is the greatest sync sample at or before the settled one. */
  lemma LandsOnPreviousSync(times: seq<u64>, sync: Option<seq<u32>>, target: u64, i: nat, r: nat)
    requires NonDecreasing(times) && i < |times|
    requires Lands(times, sync, target, PreviousSync, i, Some(r))
    ensures (exists j :: 0 <= j <= i && IsSync(sync, j)) ==>
              r <= i && IsSync(sync, r) && forall j :: r < j <= i ==> !IsSync(sync, j)
    ensures (forall j :: 0 <= j <= i ==> !IsSync(sync, j)) ==>
              i < r < |times| && IsSync(sync, r) && times[i] < times[r] &&
              forall j :: i < j < r && IsSync(sync, j) ==> times[j] == times[i]
  {
    if exists j :: 0 <= j <= i && IsSync(sync, j) {
      forall j | r < j <= i ensures !IsSync(sync, j) {
        assert !Candidate(times, sync, LessEq, times[i], true, j);
      }
    } else {
      forall j | i < j < r && IsSync(sync, j) ensures times[j] == times[i] {
        assert !Candidate(times, sync, Greater, times[i], true, j);
      }
    }
  }

  /** Starting from the settled sample, the nearest search misses nothing: earlier samples are farther away. */
  lemma NearestIsGlobal(times: seq<u64>, sync: Option<seq<u32>>, target: u64, i: nat, m: nat)
    requires NonDecreasing(times) && Settled(times, target, i)
    requires Lands(times, sync, target, NearestSample, i, Some(m))
    ensures forall j :: 0 <= j < |times| ==> Distance(times[m], target) <= Distance(times[j], target)
  {
    forall j | 0 <= j < |times| ensures Distance(times[m], target) <= Distance(times[j], target) {
      assert Candidate(times, sync, Nearest, target, false, i);
      if j >= i { assert Candidate(times, sync, Nearest, target, false, j); }
    }
  }

  predicate HasSync(times: seq<u64>, sync: Option<seq<u32>>)
  {
    exists j :: 0 <= j < |times| && IsSync(sync, j)
  }

  /** With increasing times, "previous sync" finds nothing exactly when the track has no sync sample. */
  lemma NoSyncToLandOn(times: seq<u64>, sync: Option<seq<u32>>, target: u64, i: nat, r: Option<nat>)
    requires Increasing(times) && i < |times| && Lands(times, sync, target, PreviousSync, i, r)
    ensures r.None? <==> !HasSync(times, sync)
  {
    assert forall j :: 0 <= j <= i && IsSync(sync, j) ==> Candidate(times, sync, LessEq, times[i], true, j);
    assert forall j :: i < j < |times| && IsSync(sync, j) ==> Candidate(times, sync, Greater, times[i], true, j);
    if r.Some? {
      assert IsSync(sync, r.value);
    }
  }
}
