/**
 The demuxer over all its tracks: seeking them together and stepping one of them
 by a frame, through microseconds.
 */
module Demux {
  import opened Bytes
  import opened Wrappers
  import opened Timescale
  import opened Search
  import opened DemuxTrack

  /** The division by zero ends the program. */
  datatype Outcome = Done | NotFound | DivisionByZero

  class Demuxer {
    const tracks: seq<Track>

    constructor (tracks: seq<Track>)
      ensures this.tracks == tracks
    {
      this.tracks := tracks;
    }

    ghost predicate Valid()
      reads this, tracks
    {
      && (forall k :: 0 <= k < |tracks| ==> tracks[k].Valid())
      && (forall k, m :: 0 <= k < m < |tracks| ==> tracks[k] != tracks[m])
    }

    /** Track `k` sought the time, converted to its own timescale. */
    ghost predicate SoughtAt(k: nat, usec: u64, how: SeekMethod)
      requires k < |tracks|
      reads tracks[k]
    {
      && tracks[k].Sought(UsecToSampleTime(usec, tracks[k].timescale), how)
      && tracks[k].nextSample < |tracks[k].sampleDecodingTime|
    }

    /** The target of track `k` is its last sample not after the tick nearest to the time, and the one the scans find. */
    ghost predicate SettledNear(k: nat, usec: u64)
      requires k < |tracks|
      reads tracks[k]
    {
      exists ticks: u64 ::
        && NearestTick(ticks, usec, 1000000, tracks[k].timescale)
        && Settled(tracks[k].sampleDecodingTime, ticks, tracks[k].target) && tracks[k].SettledByScan(ticks)
    }

    /** A track that was sought without overflow has settled there. */
    lemma SoughtIsNear(k: nat, usec: u64, how: SeekMethod)
      requires k < |tracks| && SoughtAt(k, usec, how) && tracks[k].SettledByScan(UsecToSampleTime(usec, tracks[k].timescale))
      requires usec * tracks[k].timescale + 500000 < TWO64
      ensures SettledNear(k, usec)
    {
      hide NearestTick, UsecToSampleTime, Settled, Track.SettledByScan;
      UsecToNearest(usec, tracks[k].timescale);
    }

    /** Track `k` is where a seek ends: the tracks before it moved. */
    ghost predicate EndsAt(k: nat, usec: u64, how: SeekMethod)
      requires k < |tracks|
      reads tracks
    {
      forall m :: 0 <= m < k ==> SoughtAt(m, usec, how) && tracks[m].duration > 0
    }

    /** Every track up to the first that cannot be sought moves; the others keep their state. */
    method Seek(usec: u64, how: SeekMethod) returns (result: Outcome)
      requires Valid()
      requires how.NearestSample? || how.NearestSync? ==>
                 forall k :: 0 <= k < |tracks| ==>
                   UsecToSampleTime(usec, tracks[k].timescale) < TWO63 && tracks[k].TimesBelow(TWO63)
      modifies tracks`nextSample, tracks`pendingSeekTime, tracks`target
      ensures Valid()
      ensures result.Done? ==> forall k :: 0 <= k < |tracks| ==> SoughtAt(k, usec, how) && tracks[k].duration > 0
      ensures result.Done? ==> forall k :: 0 <= k < |tracks| && usec * tracks[k].timescale + 500000 < TWO64 ==> SettledNear(k, usec)
      ensures result.NotFound? ==> exists k :: 0 <= k < |tracks| && EndsAt(k, usec, how) && tracks[k].duration > 0
                                     && tracks[k].Unseekable(UsecToSampleTime(usec, tracks[k].timescale), how)
      ensures result.DivisionByZero? ==> exists k :: 0 <= k < |tracks| && EndsAt(k, usec, how) && tracks[k].duration == 0
      ensures how.Previous? ==> !result.NotFound?
    {
      hide Track.Valid, Track.Sought, Track.Unseekable, Track.TimesBelow, Track.SettledByScan, UsecToSampleTime, SettledNear;
      for k := 0 to |tracks|
        invariant Valid()
        invariant forall m :: 0 <= m < k ==> SoughtAt(m, usec, how) && tracks[m].duration > 0
        invariant forall m :: 0 <= m < k && usec * tracks[m].timescale + 500000 < TWO64 ==> SettledNear(m, usec)
      {
        tracks[k].PreviousAlwaysLands(UsecToSampleTime(usec, tracks[k].timescale));
        var r := tracks[k].Seek(UsecToSampleTime(usec, tracks[k].timescale), how);
        if r.DividesByZero? {
          assert EndsAt(k, usec, how);
          return DivisionByZero;
        }
        if r.Nowhere? {
          assert EndsAt(k, usec, how);
          return NotFound;
        }
        if usec * tracks[k].timescale + 500000 < TWO64 { SoughtIsNear(k, usec, how); }
      }
      return Done;
    }

    /** A track with a duration and with a sync sample. */
    predicate Ready(k: nat)
      requires k < |tracks|
      reads tracks
    {
      tracks[k].duration > 0 && HasSync(tracks[k].sampleDecodingTime, tracks[k].sync)
    }

    predicate AllReady(n: nat)
      requires n <= |tracks|
      reads tracks
    {
      forall m :: 0 <= m < n ==> Ready(m)
    }

    /** A seek to the previous sync sample stops at the first track that is not ready, if there is one. */
    lemma SyncOutcome(usec: u64, result: Outcome)
      requires AllIncreasing()
      requires result.Done? ==> forall k :: 0 <= k < |tracks| ==> SoughtAt(k, usec, PreviousSync) && tracks[k].duration > 0
      requires result.NotFound? ==> exists k :: 0 <= k < |tracks| && EndsAt(k, usec, PreviousSync) && tracks[k].duration > 0
                                      && tracks[k].Unseekable(UsecToSampleTime(usec, tracks[k].timescale), PreviousSync)
      requires result.DivisionByZero? ==> exists k :: 0 <= k < |tracks| && EndsAt(k, usec, PreviousSync) && tracks[k].duration == 0
      ensures result.Done? <==> AllReady(|tracks|)
      ensures result.NotFound? <==> StopsAtTrack(true)
      ensures result.DivisionByZero? <==> StopsAtTrack(false)
    {
      hide Track.Sought, Track.Unseekable, UsecToSampleTime, HasSync, Increasing;
      forall k | 0 <= k < |tracks|
        ensures SoughtAt(k, usec, PreviousSync) && tracks[k].duration > 0 ==> Ready(k)
      {
        tracks[k].SyncSeeks(UsecToSampleTime(usec, tracks[k].timescale));
      }
      forall k | 0 <= k < |tracks|
        ensures tracks[k].Unseekable(UsecToSampleTime(usec, tracks[k].timescale), PreviousSync) ==> !Ready(k)
      {
        tracks[k].SyncSeeks(UsecToSampleTime(usec, tracks[k].timescale));
      }
      FirstUnready();
      if result.NotFound? {
        var k :| 0 <= k < |tracks| && EndsAt(k, usec, PreviousSync) && tracks[k].duration > 0
                 && tracks[k].Unseekable(UsecToSampleTime(usec, tracks[k].timescale), PreviousSync);
        assert AllReady(k) && !Ready(k);
      }
      if result.DivisionByZero? {
        var k :| 0 <= k < |tracks| && EndsAt(k, usec, PreviousSync) && tracks[k].duration == 0;
        assert AllReady(k) && !Ready(k);
      }
    }

    /** The first track that is not ready has a duration, or has none. */
    predicate StopsAtTrack(lasting: bool)
      reads tracks
    {
      exists k :: 0 <= k < |tracks| && AllReady(k) && !Ready(k) && (lasting <==> tracks[k].duration > 0)
    }

    /** There is at most one first track that is not ready. */
    lemma FirstUnready()
      ensures forall k, m :: 0 <= k < |tracks| && 0 <= m < |tracks| && AllReady(k) && !Ready(k) && AllReady(m) && !Ready(m) ==> k == m
      ensures AllReady(|tracks|) ==> forall k :: 0 <= k < |tracks| ==> Ready(k)
    {
      hide Ready;
    }

    /** The time of a sample survives the trip through microseconds. */
    predicate Steppable(k: nat)
      requires k < |tracks|
      reads tracks[k]
    {
      && 1 <= tracks[k].timescale <= 1000000
      && Increasing(tracks[k].sampleDecodingTime)
      && forall i :: 0 <= i < |tracks[k].sampleDecodingTime| ==> UsecFits(tracks[k].sampleDecodingTime[i], tracks[k].timescale)
    }

    /** Seeking to the time of a sample settles on that very sample. */
    lemma SeekHitsSample(k: nat, i: nat, how: SeekMethod)
      requires k < |tracks| && Steppable(k) && i < |tracks[k].sampleDecodingTime|
      requires SoughtAt(k, SampleTimeToUsec(tracks[k].sampleDecodingTime[i], tracks[k].timescale), how)
      ensures tracks[k].target == i
    {
      var t := tracks[k];
      UsecRoundTripAt(t.sampleDecodingTime[i], t.timescale);
      assert Settled(t.sampleDecodingTime, t.sampleDecodingTime[i], i);
      SettledUnique(t.sampleDecodingTime, t.sampleDecodingTime[i], t.target, i);
    }

    /** The times of all tracks are distinct and in order. */
    predicate AllIncreasing()
      reads tracks
    {
      forall k :: 0 <= k < |tracks| ==> Increasing(tracks[k].sampleDecodingTime)
    }

    predicate AllLast()
      reads tracks
    {
      forall m :: 0 <= m < |tracks| ==> tracks[m].duration > 0
    }

    /** Without resync, lands exactly on the sample after the next one to be read. */
    method SeekToNextSample(k: nat, resync: bool) returns (result: Outcome)
      requires Valid() && k < |tracks|
      modifies tracks`nextSample, tracks`pendingSeekTime, tracks`target
      ensures Valid()
      ensures !resync ==> (result.NotFound? <==> old(tracks[k].nextSample) + 1 >= |tracks[k].sampleDecodingTime|)
      ensures !resync ==> (result.DivisionByZero? <==> old(tracks[k].nextSample) + 1 < |tracks[k].sampleDecodingTime| && !AllLast())
      ensures !resync && result.Done? && Steppable(k) ==>
                tracks[k].nextSample == tracks[k].target == old(tracks[k].nextSample) + 1 && tracks[k].pendingSeekTime == 0
      ensures resync && result.Done? && Steppable(k) ==> tracks[k].target == old(tracks[k].nextSample)
      ensures resync && AllIncreasing() && old(tracks[k].nextSample) < |tracks[k].sampleDecodingTime| ==>
                && (result.Done? <==> AllReady(|tracks|))
                && (result.NotFound? <==> StopsAtTrack(true)) && (result.DivisionByZero? <==> StopsAtTrack(false))
      ensures resync && old(tracks[k].nextSample) >= |tracks[k].sampleDecodingTime| ==> result.NotFound?
    {
      hide Track.Valid, Track.Sought, Track.Unseekable, UsecToSampleTime, HasSync, Increasing, Ready;
      var t := tracks[k];
      var count := |t.sampleDecodingTime|;
      var i := if resync then t.nextSample else t.nextSample + 1;
      if i >= count { return NotFound; }
      var usec := SampleTimeToUsec(t.sampleDecodingTime[i], t.timescale);
      result := Seek(usec, if resync then PreviousSync else Previous);
      if resync && AllIncreasing() { SyncOutcome(usec, result); }
      if result.Done? && Steppable(k) {
        SeekHitsSample(k, i, if resync then PreviousSync else Previous);
        if !resync { LandedOn(k, i, usec); }
      }
    }

    static lemma SampleThere(t: Track)
      requires t.Valid()
      ensures |t.sampleDecodingTime| > 0
    {
    }

    lemma LandedOn(k: nat, i: nat, usec: u64)
      requires k < |tracks| && SoughtAt(k, usec, Previous) && tracks[k].target == i
      ensures tracks[k].nextSample == i && tracks[k].pendingSeekTime == 0
    {
    }

    /** Makes the sample two back the first that is not silent, decoding from the sync sample before it. */
    method SeekToPrevSample(k: nat) returns (result: Outcome)
      requires Valid() && k < |tracks|
      requires tracks[k].nextSample < |tracks[k].sampleDecodingTime| + 2
      modifies tracks`nextSample, tracks`pendingSeekTime, tracks`target
      ensures Valid()
      ensures old(tracks[k].nextSample) == 1 ==> result.NotFound?
      ensures old(tracks[k].nextSample) != 1 && AllIncreasing() ==>
                && (result.Done? <==> AllReady(|tracks|))
                && (result.NotFound? <==> StopsAtTrack(true)) && (result.DivisionByZero? <==> StopsAtTrack(false))
      ensures result.Done? && Steppable(k) ==>
                var i := if old(tracks[k].nextSample) >= 2 then old(tracks[k].nextSample) - 2 else 0;
                && tracks[k].target == i
                && ((exists j :: 0 <= j <= i && IsSync(tracks[k].sync, j)) ==>
                      && tracks[k].nextSample <= i && IsSync(tracks[k].sync, tracks[k].nextSample)
                      && forall j :: tracks[k].nextSample < j <= i ==> !IsSync(tracks[k].sync, j))
    {
      hide Track.Valid, Track.Unseekable, UsecToSampleTime, HasSync, Ready;
      var t := tracks[k];
      if t.nextSample == 1 { return NotFound; }
      var i := if t.nextSample >= 2 then t.nextSample - 2 else 0;
      SampleThere(t);
      var usec := SampleTimeToUsec(t.sampleDecodingTime[i], t.timescale);
      result := Seek(usec, PreviousSync);
      if AllIncreasing() { SyncOutcome(usec, result); }
      if result.Done? && Steppable(k) {
        SeekHitsSample(k, i, PreviousSync);
        LandsOnPreviousSync(t.sampleDecodingTime, t.sync, UsecToSampleTime(usec, t.timescale), i, t.nextSample);
      }
    }
  }
}
