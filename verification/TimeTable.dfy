/**
 Decoding times and their run-length form (sections 8.6.1.2 of ISO/IEC 14496-12):
 what the muxer computes from the decoding times of a track, what the demuxer
 makes of the entries, and when the two agree.
 */
module TimeTable {
  import opened Bytes

  datatype TtsEntry = TtsEntry(count: u32, delta: u32)

  // ---------- from decoding times to entries ----------

  /** The step between consecutive decoding times, kept in 32 bits as the muxer keeps it. */
  function Diffs(times: seq<u64>): (d: seq<u32>)
    ensures |d| == if times == [] then 0 else |times| - 1
    ensures forall i :: 0 <= i < |d| ==> d[i] == (times[i + 1] - times[i]) % TWO32
  {
    if times == [] then [] else seq(|times| - 1, i requires 0 <= i < |times| - 1 => (times[i + 1] - times[i]) % TWO32)
  }

  /** One pass of the run-length loop: `prev` is the previous step. */
  function RleStep(es: seq<TtsEntry>, prev: u32, diff: u32): seq<TtsEntry>
  {
    if diff != prev then es + [TtsEntry(1, diff)]
    else if |es| > 0 then
      es[..|es| - 1] + [TtsEntry((es[|es| - 1].count + 1) % TWO32, es[|es| - 1].delta)]
    else es
  }

  /** The run-length form of the steps; the loop starts from the impossible-looking step 2^32-1. */
  function Rle(d: seq<u32>): seq<TtsEntry>
  {
    if d == [] then []
    else
      var k := |d| - 1;
      RleStep(Rle(d[..k]), if k == 0 then U32_MAX else d[k - 1], d[k])
  }

  /** The whole table: the runs and a final entry of one sample and zero duration. */
  function Entries(times: seq<u64>): seq<TtsEntry>
  {
    if times == [] then [] else Rle(Diffs(times)) + [TtsEntry(1, 0)]
  }

  // ---------- from entries to decoding times ----------

  function Repeat(delta: u32, n: nat): (s: seq<u32>)
    ensures |s| == n && forall i :: 0 <= i < n ==> s[i] == delta
  {
    seq(n, _ => delta)
  }

  /** One step per sample, as the entries describe them. */
  function Deltas(es: seq<TtsEntry>): seq<u32>
  {
    if es == [] then []
    else Deltas(es[..|es| - 1]) + Repeat(es[|es| - 1].delta, es[|es| - 1].count)
  }

  function Sum(d: seq<u32>): nat
  {
    if d == [] then 0 else Sum(d[..|d| - 1]) + d[|d| - 1]
  }

  /** The decoding time of every sample: the sum of the steps before it. */
  function Times(es: seq<TtsEntry>): (t: seq<nat>)
    ensures |t| == |Deltas(es)|
    ensures forall i :: 0 <= i < |t| ==> t[i] == Sum(Deltas(es)[..i])
  {
    seq(|Deltas(es)|, i requires 0 <= i < |Deltas(es)| => Sum(Deltas(es)[..i]))
  }

  lemma {:induction false} SumSnoc(d: seq<u32>, i: nat)
    requires i < |d|
    ensures Sum(d[..i + 1]) == Sum(d[..i]) + d[i]
  {
    assert d[..i + 1][..i] == d[..i];
  }

  /** The steps of entry `i` sit together, after those of the entries before it. */
  lemma {:induction false} DeltasOfEntry(es: seq<TtsEntry>, i: nat)
    requires i < |es|
    ensures |Deltas(es[..i])| + es[i].count == |Deltas(es[..i + 1])| <= |Deltas(es)|
    ensures forall k :: |Deltas(es[..i])| <= k < |Deltas(es[..i + 1])| ==> Deltas(es)[k] == es[i].delta
    decreases |es|
  {
    assert es[..i + 1][..i] == es[..i];
    if i + 1 < |es| {
      var init := es[..|es| - 1];
      DeltasOfEntry(init, i);
      assert init[..i] == es[..i] && init[..i + 1] == es[..i + 1];
    } else {
      assert es[..i + 1] == es;
    }
  }

  lemma {:induction false} SumMonotone(d: seq<u32>, i: nat, j: nat)
    requires i <= j <= |d|
    ensures Sum(d[..i]) <= Sum(d[..j])
  {
    if i < j {
      SumMonotone(d, i, j - 1);
      SumSnoc(d, j - 1);
    }
  }

  // ---------- agreement ----------

  /** The steps that open the list with the value 2^32-1 are not counted by the loop. */
  function DropLeadingMax(d: seq<u32>): seq<u32>
  {
    if d != [] && d[0] == U32_MAX then DropLeadingMax(d[1..]) else d
  }

  lemma {:induction false} DropLeadingMaxSnoc(d: seq<u32>, x: u32)
    ensures DropLeadingMax(d + [x]) ==
            if DropLeadingMax(d) == [] && x == U32_MAX then [] else DropLeadingMax(d) + [x]
    ensures DropLeadingMax(d) == [] ==> forall i :: 0 <= i < |d| ==> d[i] == U32_MAX
  {
    if d == [] {
      assert [x][1..] == [];
    } else {
      assert (d + [x])[1..] == d[1..] + [x];
      DropLeadingMaxSnoc(d[1..], x);
      assert forall i :: 0 < i < |d| ==> d[i] == d[1..][i - 1];
    }
  }

  lemma DeltasSnoc(es: seq<TtsEntry>, e: TtsEntry)
    ensures Deltas(es + [e]) == Deltas(es) + Repeat(e.delta, e.count)
  {
    assert (es + [e])[..|es|] == es;
  }

  /** Counting one more sample in the last entry adds one step to the expansion. */
  lemma DeltasBump(es: seq<TtsEntry>)
    requires es != [] && es[|es| - 1].count < U32_MAX
    ensures var last := es[|es| - 1];
            && RleStep(es, last.delta, last.delta) == es[..|es| - 1] + [TtsEntry(last.count + 1, last.delta)]
            && Deltas(RleStep(es, last.delta, last.delta)) == Deltas(es) + [last.delta]
  {
    var last := es[|es| - 1];
    DeltasSnoc(es[..|es| - 1], TtsEntry(last.count + 1, last.delta));
    assert Repeat(last.delta, last.count) + [last.delta] == Repeat(last.delta, last.count + 1);
  }

  /** What the runs of a list of steps expand to, and the shape the loop relies on. */
  lemma {:induction false} RleExpands(d: seq<u32>)
    requires |d| < TWO32
    ensures Deltas(Rle(d)) == DropLeadingMax(d)
    ensures Rle(d) == [] <==> DropLeadingMax(d) == []
    ensures Rle(d) != [] ==> d != [] && var last := Rle(d)[|Rle(d)| - 1]; last.delta == d[|d| - 1] && 1 <= last.count <= |d|
  {
    if d != [] {
      var k := |d| - 1;
      var init, x := d[..k], d[k];
      assert d == init + [x];
      RleExpands(init);
      DropLeadingMaxSnoc(init, x);
      var es := Rle(init);
      var prev := if k == 0 then U32_MAX else d[k - 1];
      if x != prev {
        DeltasSnoc(es, TtsEntry(1, x));
        assert Repeat(x, 1) == [x];
      } else if es != [] {
        DeltasBump(es);
      } else {
        assert x == U32_MAX;
      }
    }
  }

  /** Steps that did not lose their high bits sum back to the difference of the times. */
  lemma {:induction false} SumTelescopes(times: seq<u64>, i: nat)
    requires i < |times|
    requires forall j :: 0 <= j < |times| - 1 ==> 0 <= times[j + 1] - times[j] < TWO32
    ensures Sum(Diffs(times)[..i]) == times[i] as int - times[0] as int
  {
    if i > 0 {
      SumTelescopes(times, i - 1);
      SumSnoc(Diffs(times), i - 1);
    }
  }

  /** The guard a caller can test: every step fits 32 bits and the first is not 2^32-1. */
  predicate StepsFit(times: seq<u64>)
  {
    && (forall j :: 0 <= j < |times| - 1 ==> 0 <= times[j + 1] - times[j] < TWO32)
    && (|times| > 1 ==> times[1] - times[0] != U32_MAX)
  }

  predicate Rebased(times: seq<u64>, t: seq<nat>)
  {
    |t| == |times| && forall i :: 0 <= i < |times| ==> t[i] == times[i] as int - times[0] as int
  }

  lemma DropLeadingMaxLength(d: seq<u32>)
    ensures |DropLeadingMax(d)| <= |d|
    ensures |DropLeadingMax(d)| == |d| <==> d == [] || d[0] != U32_MAX
    ensures d == [] || d[0] != U32_MAX ==> DropLeadingMax(d) == d
  {
  }

  /** The number of samples the table accounts for. */
  lemma {:induction false} EntriesCount(times: seq<u64>)
    requires 0 < |times| < TWO32
    ensures Deltas(Entries(times)) == DropLeadingMax(Diffs(times)) + [0]
    ensures |Deltas(Entries(times))| == |times| <==> |times| == 1 || Diffs(times)[0] != U32_MAX
  {
    RleExpands(Diffs(times));
    DeltasSnoc(Rle(Diffs(times)), TtsEntry(1, 0));
    assert Repeat(0, 1) == [0];
    DropLeadingMaxLength(Diffs(times));
  }

  lemma {:induction false} FittingTimesRebased(times: seq<u64>)
    requires 0 < |times| < TWO32 && StepsFit(times)
    ensures Rebased(times, Times(Entries(times)))
  {
    EntriesCount(times);
    DropLeadingMaxLength(Diffs(times));
    var d := Diffs(times);
    assert Deltas(Entries(times)) == d + [0];
    forall i | 0 <= i < |times| ensures Sum((d + [0])[..i]) == times[i] as int - times[0] as int {
      SumTelescopes(times, i);
      assert (d + [0])[..i] == d[..i];
    }
  }

  lemma {:induction false} RebasedTimesFit(times: seq<u64>)
    requires 0 < |times| < TWO32 && Rebased(times, Times(Entries(times)))
    ensures StepsFit(times)
  {
    EntriesCount(times);
    DropLeadingMaxLength(Diffs(times));
    var d := Diffs(times);
    var t := Times(Entries(times));
    assert Deltas(Entries(times)) == d + [0];
    forall j | 0 <= j < |times| - 1 ensures 0 <= times[j + 1] - times[j] < TWO32 {
      SumSnoc(d + [0], j);
      assert t[j + 1] - t[j] == d[j];
    }
  }

  /** The demuxer recovers the decoding times, counted from the first, exactly when `StepsFit` holds. */
  lemma TimesRoundTrip(times: seq<u64>)
    requires 0 < |times| < TWO32
    ensures Rebased(times, Times(Entries(times))) <==> StepsFit(times)
  {
    if StepsFit(times) { FittingTimesRebased(times); }
    if Rebased(times, Times(Entries(times))) { RebasedTimesFit(times); }
  }

  // ---------- growth ----------

  lemma {:induction false} RleGrows(d: seq<u32>, k: nat)
    requires k <= |d|
    ensures |Rle(d[..k])| <= |Rle(d)|
    decreases |d|
  {
    if k == |d| {
      assert d[..k] == d;
    } else {
      var init := d[..|d| - 1];
      assert init[..k] == d[..k];
      RleGrows(init, k);
    }
  }

  /** Appending samples never shortens the table, so the journal's entry delta cannot wrap. */
  lemma {:induction false} EntriesGrow(times: seq<u64>, k: nat)
    requires k <= |times|
    ensures |Entries(times[..k])| <= |Entries(times)|
  {
    if k > 0 {
      assert Diffs(times[..k]) == Diffs(times)[..k - 1];
      RleGrows(Diffs(times), k - 1);
    }
  }

  lemma {:induction false} RleShort(d: seq<u32>)
    ensures |Rle(d)| <= |d|
  {
    if d != [] { RleShort(d[..|d| - 1]); }
  }

  /** The table never has more entries than there are samples. */
  lemma EntriesShort(times: seq<u64>)
    ensures |Entries(times)| <= |times| && (times != [] ==> Entries(times) != [])
  {
    RleShort(Diffs(times));
  }
}
