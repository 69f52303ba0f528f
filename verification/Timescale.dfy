/**
 The three conversions between sample times, microseconds and movie time, with
 the 64-bit arithmetic of the library, and how far rounding can take them.
 */
module Timescale {
  import opened Bytes
  import opened TimeTable

  function UsecToSampleTime(time: u64, timescale: u32): u64
  {
    (time * timescale + 500000) % TWO64 / 1000000
  }

  function SampleTimeToUsec(time: u64, timescale: u32): u64
  {
    if timescale == 0 then 0 else (time * 1000000 + timescale / 2) % TWO64 / timescale
  }

  function Convert(time: u64, src: u32, dest: u32): u64
    requires src != 0 || src == dest
  {
    if src == dest then time else (time * dest + src / 2) % TWO64 / src
  }

  /** The tick nearest to `time` units of which `from` make a second, when `to` ticks do; halfway, the later one. */
  predicate NearestTick(ticks: int, time: nat, from: nat, to: nat)
  {
    from * (2 * ticks - 1) <= 2 * (time * to) < from * (2 * ticks + 1)
  }

  /** One division rounds to the nearest. */
  lemma DivisionRounds(a: nat, b: nat)
    requires b > 0
    ensures var q := (a + b / 2) / b; b * (2 * q - 1) <= 2 * a < b * (2 * q + 1)
  {
    var q := (a + b / 2) / b;
    DivBounds(a + b / 2, b);
    assert b * (2 * q - 1) == 2 * (q * b) - b && b * (2 * q + 1) == 2 * (q * b) + b;
  }

  lemma Nearest(a: nat, time: nat, from: nat, to: nat, q: nat)
    requires from > 0 && a == time * to && a + from / 2 < TWO64 && q == (a + from / 2) % TWO64 / from
    ensures NearestTick(q, time, from, to)
  {
    assert (a + from / 2) % TWO64 == a + from / 2;
    DivisionRounds(a, from);
  }

  /** Seeking converts microseconds to the nearest sample time, unless the product overflows. */
  lemma UsecToNearest(time: u64, timescale: u32)
    requires time * timescale + 500000 < TWO64
    ensures NearestTick(UsecToSampleTime(time, timescale), time, 1000000, timescale)
  {
    Nearest(time * timescale, time, 1000000, timescale, UsecToSampleTime(time, timescale));
  }

  /** Sample times are told in the nearest number of microseconds, unless the product overflows. */
  lemma SampleTimeToNearest(time: u64, timescale: u32)
    requires timescale > 0 && time * 1000000 + timescale / 2 < TWO64
    ensures NearestTick(SampleTimeToUsec(time, timescale), time, timescale, 1000000)
  {
    Nearest(time * 1000000, time, timescale, 1000000, SampleTimeToUsec(time, timescale));
  }

  /** Any two different ticks are nearest to different times. */
  lemma NearestIsOne(q: int, r: int, time: nat, from: nat, to: nat)
    requires from > 0 && NearestTick(q, time, from, to) && NearestTick(r, time, from, to)
    ensures q == r
  {
    if q < r { MulLe(2 * q + 1, 2 * r - 1, from); }
    if r < q { MulLe(2 * r + 1, 2 * q - 1, from); }
  }

  /** Neither direction of the microsecond conversion overflows 64 bits at this time. */
  predicate UsecFits(time: u64, timescale: u32)
  {
    time * 1000000 + timescale / 2 < TWO64 && time * 1000000 + timescale + 500000 < TWO64
  }

  lemma MulLe(x: int, y: int, b: nat)
    requires x <= y
    ensures x * b <= y * b
  {
  }

  lemma DivBounds(a: nat, b: nat)
    requires b > 0
    ensures a / b * b <= a < a / b * b + b
  {
  }

  lemma DivUnique(a: nat, b: nat, q: int)
    requires b > 0 && q * b <= a < q * b + b
    ensures a / b == q
  {
    DivBounds(a, b);
    if a / b < q { MulLe(a / b + 1, q, b); }
    if a / b > q { MulLe(q + 1, a / b, b); }
  }

  /** A quotient that is rounded up stays within a bound that its exact value is within. */
  lemma RoundedUp(a: nat, d: nat, q: nat, bound: nat)
    requires d > 0 && q * d <= a + d - 1 < q * d + d && a <= d * bound
    ensures q <= bound
  {
    if q > bound { MulLe(bound + 1, q, d); }
  }

  lemma DivMonotone(a: nat, b: nat, c: nat)
    requires c > 0 && a <= b
    ensures a / c <= b / c
  {
    DivBounds(a, c);
    DivBounds(b, c);
    if a / c > b / c { MulLe(b / c + 1, a / c, c); }
  }

  /** The rounding of one direction is undone by the other: `ticks` stands for usec * timescale. */
  lemma NearestMillionth(time: nat, timescale: nat, ticks: nat)
    requires timescale <= 1000000
    requires ticks <= time * 1000000 + timescale / 2 < ticks + timescale
    requires timescale == 1000000 ==> ticks == time * 1000000
    ensures (ticks + 500000) / 1000000 == time
  {
  }

  lemma BackFromUsec(time: u64, timescale: u32, u: u64)
    requires 1 <= timescale <= 1000000 && time * 1000000 + timescale + 500000 < TWO64
    requires u * timescale <= time * 1000000 + timescale / 2 < u * timescale + timescale
    ensures UsecToSampleTime(u, timescale) == time
  {
    var ticks: nat := u * timescale;
    assert (ticks + 500000) % TWO64 == ticks + 500000;
    NearestMillionth(time, timescale, ticks);
  }

  /** One time survives the trip through microseconds when the timescale is at most a million. */
  lemma UsecRoundTripAt(time: u64, timescale: u32)
    requires 1 <= timescale <= 1000000 && UsecFits(time, timescale)
    ensures UsecToSampleTime(SampleTimeToUsec(time, timescale), timescale) == time
  {
    var a: nat := time * 1000000 + timescale / 2;
    assert a % TWO64 == a;
    DivBounds(a, timescale);
    var u: u64 := SampleTimeToUsec(time, timescale);
    assert u == a / timescale;
    BackFromUsec(time, timescale, u);
  }

  ghost predicate UsecRoundTrips(timescale: u32)
  {
    forall time: u64 | UsecFits(time, timescale) ::
      UsecToSampleTime(SampleTimeToUsec(time, timescale), timescale) == time
  }

  /** Small times do not overflow, whatever the timescale. */
  lemma SmallUsecFits(time: nat, timescale: u32)
    requires time <= timescale
    ensures UsecFits(time, timescale)
    ensures timescale > 0 ==> SampleTimeToUsec(time, timescale) == (time * 1000000 + timescale / 2) / timescale
  {
    var a: nat := time * 1000000 + timescale / 2;
    assert a % TWO64 == a;
  }

  /** A conversion that were the identity would have to stay ahead of the sample times. */
  lemma {:induction false} UsecKeepsUp(time: nat, timescale: u32)
    requires timescale > 0 && time <= timescale && UsecRoundTrips(timescale)
    ensures SampleTimeToUsec(time, timescale) >= time
  {
    if time > 0 {
      UsecKeepsUp(time - 1, timescale);
      SmallUsecFits(time - 1, timescale);
      SmallUsecFits(time, timescale);
      DivMonotone((time - 1) * 1000000 + timescale / 2, time * 1000000 + timescale / 2, timescale);
      assert UsecToSampleTime(SampleTimeToUsec(time - 1, timescale), timescale) == time - 1;
      assert UsecToSampleTime(SampleTimeToUsec(time, timescale), timescale) == time;
    }
  }

  /** Frame stepping through microseconds is exact for every time exactly when the timescale is at most a million. */
  lemma UsecRoundTrip(timescale: u32)
    requires timescale > 0
    ensures UsecRoundTrips(timescale) <==> timescale <= 1000000
  {
    if timescale <= 1000000 {
      forall time: u64 | UsecFits(time, timescale) {
        UsecRoundTripAt(time, timescale);
      }
    } else if UsecRoundTrips(timescale) {
      UsecKeepsUp(timescale, timescale);
      SmallUsecFits(timescale, timescale);
      DivUnique(timescale * 1000000 + timescale / 2, timescale, 1000000);
    }
  }

  // ---------- durations ----------

  lemma ProductFits(a: u32, b: u32)
    ensures 0 <= a as int * b as int <= 0xFFFF_FFFE_0000_0001
  {
    MulLe(a, U32_MAX, b);
    MulLe(b, U32_MAX, U32_MAX);
  }

  /** Without overflow, times are converted to the nearest. */
  lemma ConvertsToNearest(time: u64, src: u32, dest: u32)
    requires src > 0 && time * dest + src / 2 < TWO64
    ensures NearestTick(Convert(time, src, dest), time, src, dest)
  {
    if src == dest {
      var a: nat := time * dest;
      assert src * (2 * time - 1) == 2 * a - src && src * (2 * time + 1) == 2 * a + src;
    } else {
      Nearest(time * dest, time, src, dest, Convert(time, src, dest));
    }
  }

  /** A 32-bit step never overflows the 64-bit product, and rounds to the nearest movie tick. */
  lemma ConvertRounds(diff: u32, src: u32, dest: u32)
    requires src > 0
    ensures 0 <= diff as int * dest as int + src / 2 < TWO64
    ensures NearestTick(Convert(diff, src, dest), diff, src, dest)
    ensures TwiceError(Convert(diff, src, dest), src, diff, dest) <= src
  {
    ProductFits(diff, dest);
    ConvertsToNearest(diff, src, dest);
    if src != dest {
      DivBounds(diff as int * dest as int + src / 2, src);
    }
  }

  /** Twice the distance between `ticks` movie ticks and `time` track ticks, in units of 1/(src*dest). */
  function TwiceError(ticks: int, src: int, time: int, dest: int): int
  {
    var err := 2 * (ticks * src - time * dest);
    if err < 0 then -err else err
  }

  lemma TwiceErrorZero(src: int, dest: int)
    ensures TwiceError(0, src, 0, dest) == 0
  {
  }

  lemma TwiceErrorAdds(m: int, c: int, src: int, s: int, x: int, dest: int)
    ensures TwiceError(m + c, src, s + x, dest) <= TwiceError(m, src, s, dest) + TwiceError(c, src, x, dest)
  {
    assert (m + c) * src == m * src + c * src;
    assert (s + x) * dest == s * dest + x * dest;
  }

  /** The movie-scale duration: every step is rounded on its own and then added. */
  function MovieDuration(d: seq<u32>, src: u32, dest: u32): nat
    requires src > 0
  {
    if d == [] then 0 else MovieDuration(d[..|d| - 1], src, dest) + Convert(d[|d| - 1], src, dest)
  }

  /** Rounding errors add up to at most half a movie tick per step. */
  lemma {:induction false} MovieDurationError(d: seq<u32>, src: u32, dest: u32)
    requires src > 0
    ensures TwiceError(MovieDuration(d, src, dest), src, Sum(d), dest) <= |d| * src
  {
    hide TwiceError, Convert;
    if d == [] {
      TwiceErrorZero(src, dest);
    } else {
      var init, x := d[..|d| - 1], d[|d| - 1];
      MovieDurationError(init, src, dest);
      ConvertRounds(x, src, dest);
      TwiceErrorAdds(MovieDuration(init, src, dest), Convert(x, src, dest), src, Sum(init), x, dest);
      assert |d| * src == |init| * src + src;
    }
  }

  /** On times whose steps fit, the track duration is last minus first. */
  lemma TrackDuration(times: seq<u64>)
    requires times != []
    requires forall j :: 0 <= j < |times| - 1 ==> 0 <= times[j + 1] - times[j] < TWO32
    ensures Sum(Diffs(times)) == times[|times| - 1] as int - times[0] as int
  {
    SumTelescopes(times, |times| - 1);
    assert Diffs(times)[..|times| - 1] == Diffs(times);
  }

  /** The movie duration is then within half a movie tick per step of the exact one. */
  lemma MovieDurationOfTimes(times: seq<u64>, src: u32, dest: u32)
    requires src > 0 && times != []
    requires forall j :: 0 <= j < |times| - 1 ==> 0 <= times[j + 1] - times[j] < TWO32
    ensures var span := times[|times| - 1] as int - times[0] as int;
            TwiceError(MovieDuration(Diffs(times), src, dest), src, span, dest) <= (|times| - 1) * src
  {
    var d := Diffs(times);
    MovieDurationError(d, src, dest);
    TrackDuration(times);
  }
}
