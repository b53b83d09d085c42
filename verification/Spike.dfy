/** The statistical spike test of internal/anomaly/detector.go (baselineTracker). */
module Spike {
  import opened Models
  import opened Seqs
  import opened Slices
  import opened Stats
  import Windows

  const MIN_SAMPLES := 10

  datatype Key = Key(moduleName: string, eventType: string)

  datatype Bucket = Bucket(count: nat, at: Time)

  datatype Baseline = Baseline(mean: real, stddev: real)

  /** Unix() / 60: whole seconds, then truncated to minutes. */
  function Minute(t: Time): int {
    TruncDiv(t / SECOND, 60)
  }

  function Live(at: Time, windowH: int): Bucket -> bool {
    (b: Bucket) => b.at > at - windowH * HOUR
  }

  /** One record: expired buckets go, the new one is appended. */
  function AfterRecord(window: seq<Bucket>, at: Time, windowH: int): seq<Bucket> {
    Filter(Live(at, windowH), window) + [Bucket(1, at)]
  }

  function Minutes(window: seq<Bucket>): set<int> {
    set b <- window :: Minute(b.at)
  }

  /** The events that fall into minute m. */
  function CountAt(window: seq<Bucket>, m: int): nat {
    if window == [] then 0
    else
      var last := window[|window| - 1];
      CountAt(window[..|window| - 1], m) + if Minute(last.at) == m then last.count else 0
  }

  /** The per-minute counts, in such an order. */
  function CountsIn(window: seq<Bucket>, order: seq<int>): seq<real> {
    MapSeq((m: int) => CountAt(window, m) as real, order)
  }

  /** The comparison at the end of record, for one iteration order. */
  ghost predicate TestIn(window: seq<Bucket>, order: seq<int>, at: Time, sigma: real, sqrt: real -> real) {
    var counts := CountsIn(window, order);
    Exceeds(CountAt(window, Minute(at)) as real, Mean(counts), sqrt(Variance(counts)), sigma)
  }

  /** The baseline record stores. */
  ghost function BaselineOf(window: seq<Bucket>, sqrt: real -> real): Baseline {
    var counts := CountsIn(window, SomeOrder(Minutes(window)));
    Baseline(Mean(counts), sqrt(Variance(counts)))
  }

  /** What record reports. */
  ghost predicate Spikes(window: seq<Bucket>, at: Time, sigma: real, sqrt: real -> real) {
    |window| >= MIN_SAMPLES && TestIn(window, SomeOrder(Minutes(window)), at, sigma, sqrt)
  }

  /** The report does not depend on the order in which the map is ranged over. */
  lemma OrderDoesNotMatter(window: seq<Bucket>, order: seq<int>, at: Time, sigma: real, sqrt: real -> real)
    requires Enumerates(order, Minutes(window))
    ensures TestIn(window, order, at, sigma, sqrt) <==> TestIn(window, SomeOrder(Minutes(window)), at, sigma, sqrt)
    ensures |order| == |Minutes(window)|
    ensures var counts := CountsIn(window, order);
      BaselineOf(window, sqrt) == Baseline(Mean(counts), sqrt(Variance(counts)))
  {
    var other := SomeOrder(Minutes(window));
    SomeOrderEnumerates(Minutes(window));
    EnumerationsPermute(order, other, Minutes(window));
    MapMultiset((m: int) => CountAt(window, m) as real, order, other);
    OrderIrrelevant(CountsIn(window, order), CountsIn(window, other));
  }

  // The bound

  /**
   A spike over n distinct minutes needs n sigma^2 < (n - 1)^2.
   */
  lemma SpikeNeedsMinutes(window: seq<Bucket>, at: Time, sigma: real, sqrt: real -> real)
    requires IsSqrt(sqrt) && sigma >= 0.0
    requires Spikes(window, at, sigma, sqrt) && Minute(at) in Minutes(window)
    ensures (|Minutes(window)| as real) * Sq(sigma) < Sq((|Minutes(window)| - 1) as real)
  {
    hide Sq, Mean, Variance, Exceeds, Minute, Minutes, CountAt, CountsIn, SomeOrder, Enumerates;
    var order := SomeOrder(Minutes(window));
    SomeOrderEnumerates(Minutes(window));
    var counts := CountsIn(window, order);
    var i := PlaceOf(window, order, Minute(at));
    VarianceNonNegative(counts);
    SpikeBound(counts, i, sqrt(Variance(counts)), sigma);
  }

  lemma PlaceOf(window: seq<Bucket>, order: seq<int>, m: int) returns (i: nat)
    requires Enumerates(order, Minutes(window)) && m in Minutes(window)
    ensures |CountsIn(window, order)| == |order|
    ensures i < |order| && order[i] == m && CountsIn(window, order)[i] == CountAt(window, m) as real
  {
    hide CountAt, Minutes;
    i :| 0 <= i < |order| && order[i] == m;
  }

  lemma VarianceNonNegative(v: seq<real>)
    ensures Variance(v) >= 0.0
  {
    if |v| > 1 {
      SumSqNonNegative(v, Mean(v));
      QuotientNonNegative(SumSq(v, Mean(v)), (|v| - 1) as real);
    }
  }

  /** With the default threshold of 3, whatever was recorded before, ten distinct minutes are not enough. */
  lemma DefaultNeedsElevenMinutes(before: seq<Bucket>, at: Time, windowH: int, sqrt: real -> real)
    requires IsSqrt(sqrt) && Spikes(AfterRecord(before, at, windowH), at, 3.0, sqrt)
    ensures |Minutes(AfterRecord(before, at, windowH))| >= 11
  {
    hide Sq, TestIn, Minute;
    var window := AfterRecord(before, at, windowH);
    assert window[|window| - 1] == Bucket(1, at);
    assert Minute(at) in Minutes(window);
    SpikeNeedsMinutes(window, at, 3.0, sqrt);
    ElevenBound(|Minutes(window)|);
  }

  lemma ElevenBound(n: nat)
    requires (n as real) * Sq(3.0) < Sq((n - 1) as real)
    requires n >= 1
    ensures n >= 11
  {
    if n < 11 {
      LowMinutes(n as real);
    }
  }

  lemma LowMinutes(r: real)
    requires 1.0 <= r <= 10.0
    ensures Sq(r - 1.0) <= r * Sq(3.0)
  {
    var a := r - 1.0;
    ProductNonNegative(a, 9.0 - a);
    assert a * (9.0 - a) == 9.0 * a - Sq(a);
  }

  // One more event in the current minute

  lemma MinutesSnoc(window: seq<Bucket>, b: Bucket)
    ensures Minutes(window + [b]) == Minutes(window) + {Minute(b.at)}
  {
    hide Minute;
    forall m
      ensures m in Minutes(window + [b]) <==> m in Minutes(window) + {Minute(b.at)}
    {
      if m in Minutes(window) {
        var x :| x in window && Minute(x.at) == m;
        assert x in window + [b];
      }
      assert b in window + [b];
    }
  }

  lemma CountSnoc(window: seq<Bucket>, b: Bucket, m: int)
    ensures CountAt(window + [b], m) == CountAt(window, m) + if Minute(b.at) == m then b.count else 0
  {
    assert (window + [b])[..|window|] == window;
  }

  /** Once the current minute is a spike, so it is after one more event. */
  lemma StillSpikes(window: seq<Bucket>, at: Time, sigma: real, sqrt: real -> real)
    requires IsSqrt(sqrt) && sigma >= 0.0 && Minute(at) in Minutes(window)
    requires Spikes(window, at, sigma, sqrt)
    ensures Spikes(window + [Bucket(1, at)], at, sigma, sqrt)
  {
    hide Sq, Mean, Variance, Exceeds, Minute, Minutes, CountAt, CountsIn, SomeOrder;
    var order := SomeOrder(Minutes(window));
    var longer := window + [Bucket(1, at)];
    SomeOrderEnumerates(Minutes(window));
    MinutesSnoc(window, Bucket(1, at));
    assert Minutes(longer) == Minutes(window);
    var counts, more := CountsIn(window, order), CountsIn(longer, order);
    var i := PlaceOf(window, order, Minute(at));
    OneCountRaised(window, at, order, i);
    VarianceNonNegative(counts);
    VarianceNonNegative(more);
    CountSnoc(window, Bucket(1, at), Minute(at));
    HigherStillExceeds(counts, i, more[i], sqrt(Variance(counts)), sqrt(Variance(more)), sigma);
  }

  lemma OneCountRaised(window: seq<Bucket>, at: Time, order: seq<int>, i: nat)
    requires Distinct(order) && i < |order| && order[i] == Minute(at)
    ensures var counts, more := CountsIn(window, order), CountsIn(window + [Bucket(1, at)], order);
      && i < |counts| == |more|
      && more == counts[i := CountAt(window + [Bucket(1, at)], Minute(at)) as real]
      && more[i] >= counts[i]
  {
    hide CountAt, Minute;
    forall j | 0 <= j < |order|
      ensures CountAt(window + [Bucket(1, at)], order[j]) == CountAt(window, order[j]) + if j == i then 1 else 0
    {
      CountSnoc(window, Bucket(1, at), order[j]);
    }
  }

  // Windows that a run of records leaves

  /** The window after records at these times. */
  function WindowAfter(times: seq<Time>, windowH: int): seq<Bucket> {
    if times == [] then []
    else AfterRecord(WindowAfter(times[..|times| - 1], windowH), times[|times| - 1], windowH)
  }

  /** No record expires an earlier one. */
  ghost predicate NoneExpires(times: seq<Time>, windowH: int) {
    forall i, j :: 0 <= i < j < |times| ==> times[i] > times[j] - windowH * HOUR
  }

  function Buckets(times: seq<Time>): seq<Bucket> {
    MapSeq((t: Time) => Bucket(1, t), times)
  }

  lemma {:induction false} AllHeld(times: seq<Time>, windowH: int)
    requires NoneExpires(times, windowH)
    ensures WindowAfter(times, windowH) == Buckets(times)
  {
    if times != [] {
      var n := |times| - 1;
      AllHeld(times[..n], windowH);
      forall b <- Buckets(times[..n])
        ensures Live(times[n], windowH)(b)
      {
        var i :| 0 <= i < n && Buckets(times[..n])[i] == b;
        assert times[i] > times[n] - windowH * HOUR;
      }
      FilterAll(Live(times[n], windowH), Buckets(times[..n]));
      assert Buckets(times) == Buckets(times[..n]) + [Bucket(1, times[n])];
    }
  }

  /** Pruning buckets is pruning their times. */
  lemma {:induction false} PruneTimes(at: Time, windowH: int, times: seq<Time>)
    ensures Filter(Live(at, windowH), Buckets(times))
      == Buckets(Filter(Windows.Within(at, windowH * 3600 * 1_000_000_000), times))
  {
    if times == [] {
      assert Buckets(times) == [];
    } else {
      var rest := Filter(Windows.Within(at, windowH * 3600 * 1_000_000_000), times[1..]);
      PruneTimes(at, windowH, times[1..]);
      assert Buckets(times)[0] == Bucket(1, times[0]) && Buckets(times)[1..] == Buckets(times[1..]);
      assert Live(at, windowH)(Bucket(1, times[0]))
        == Windows.Within(at, windowH * 3600 * 1_000_000_000)(times[0]);
      BucketsConcat([times[0]], rest);
      BucketsConcat([], rest);
    }
  }

  lemma BucketsConcat(a: seq<Time>, b: seq<Time>)
    ensures Buckets(a + b) == Buckets(a) + Buckets(b)
    ensures forall t :: a == [t] ==> Buckets(a) == [Bucket(1, t)]
    ensures a == [] ==> Buckets(a) == []
  {
  }

  /**
   Closed form: after any run of records, whatever the order of their times, the window
   holds exactly the records t_i with t_i > t_j - windowH hours for every later t_j.
   */
  lemma {:induction false} BaselineClosedForm(times: seq<Time>, windowH: int)
    ensures WindowAfter(times, windowH) == Buckets(Windows.Survivors(times, windowH * 3600 * 1_000_000_000))
  {
    if times == [] {
      BucketsConcat([], []);
    } else {
      var before, at := times[..|times| - 1], times[|times| - 1];
      var held := Windows.Survivors(before, windowH * 3600 * 1_000_000_000);
      BaselineClosedForm(before, windowH);
      PruneTimes(at, windowH, held);
      assert times == before + [at];
      assert WindowAfter(times, windowH) == AfterRecord(WindowAfter(before, windowH), at, windowH);
      Windows.SurvivorsSnoc(before, at, windowH * 3600 * 1_000_000_000);
      BucketsConcat([at], []);
      BucketsConcat(Filter(Windows.Within(at, windowH * 3600 * 1_000_000_000), held), [at]);
    }
  }

  /** A minute is sixty seconds; before 1970 seconds are counted back to the whole minute. */
  lemma MinuteIs(t: Time)
    ensures t >= 0 ==> Minute(t) * 60_000_000_000 <= t < (Minute(t) + 1) * 60_000_000_000
    ensures t < 0 ==> (Minute(t) - 1) * 60_000_000_000 < t < (Minute(t) * 60 + 1) * 1_000_000_000
  {
  }

  // What a run of records reports

  /** The times that fall into minute m. */
  function InMinute(m: int): Time -> bool {
    (t: Time) => Minute(t) == m
  }

  lemma {:induction false} CountIsFilter(times: seq<Time>, m: int)
    ensures CountAt(Buckets(times), m) == |Filter(InMinute(m), times)|
  {
    if times == [] {
      assert Buckets(times) == [];
    } else {
      var before, last := times[..|times| - 1], times[|times| - 1];
      CountIsFilter(before, m);
      assert times == before + [last];
      BucketsConcat(before, [last]);
      hide CountAt, Filter, Minute;
      CountSnoc(Buckets(before), Bucket(1, last), m);
      FilterSnoc(InMinute(m), before, last);
    }
  }

  lemma MinutesOfBuckets(times: seq<Time>)
    ensures Minutes(Buckets(times)) == set t <- times :: Minute(t)
  {
    hide Minute;
    forall t <- times
      ensures Bucket(1, t) in Buckets(times)
    {
      var i :| 0 <= i < |times| && times[i] == t;
      assert Buckets(times)[i] == Bucket(1, t);
    }
    forall b <- Buckets(times)
      ensures b.at in times
    {
    }
  }

  /** The current rate exceeds the mean by more than sigma sample deviations: the test on squares. */
  ghost predicate OverThreshold(counts: seq<real>, current: real, sigma: real) {
    && |counts| >= 2 && current > Mean(counts)
    && ((|counts| - 1) as real) * Sq(current - Mean(counts)) > Sq(sigma) * SumSq(counts, Mean(counts))
  }

  /**
   After records at `times`, of which `live` have not expired, the last one is reported
   if and only if ten or more are live and, of the numbers of live records per minute in
   any order of the minutes, the one of its own minute is over the threshold.
   */
  lemma ReportIff(times: seq<Time>, windowH: int, sigma: real, sqrt: real -> real, order: seq<int>)
    requires IsSqrt(sqrt) && sigma >= 0.0 && times != []
    requires var live := Windows.Survivors(times, windowH * 3600 * 1_000_000_000);
      Enumerates(order, set t <- live :: Minute(t))
    ensures var live, at := Windows.Survivors(times, windowH * 3600 * 1_000_000_000), times[|times| - 1];
      var perMinute := (m: int) => |Filter((t: Time) => Minute(t) == m, live)| as real;
      Spikes(WindowAfter(times, windowH), at, sigma, sqrt)
      <==> |live| >= 10 && OverThreshold(MapSeq(perMinute, order), perMinute(Minute(at)), sigma)
  {
    hide Filter, Minute, Windows.Survivors, WindowAfter, Mean, Variance, Sq, SumSq, IsSqrt, Exceeds;
    var live, at := Windows.Survivors(times, windowH * 3600 * 1_000_000_000), times[|times| - 1];
    var perMinute := (m: int) => |Filter((t: Time) => Minute(t) == m, live)| as real;
    var window := Buckets(live);
    BaselineClosedForm(times, windowH);
    MinutesOfBuckets(live);
    OrderDoesNotMatter(window, order, at, sigma, sqrt);
    BucketCount(live);
    forall m
      ensures CountAt(window, m) as real == perMinute(m)
    {
      CountIsFilter(live, m);
      SameMinute(m, live);
    }
    hide CountAt;
    assert CountsIn(window, order) == MapSeq(perMinute, order);
    LastIsLive(times, windowH);
    assert Minute(at) in set t <- live :: Minute(t);
    assert Minute(at) in order;
    var i :| 0 <= i < |order| && order[i] == Minute(at);
    ThresholdIff(MapSeq(perMinute, order), i, sigma, sqrt);
  }

  lemma SameMinute(m: int, times: seq<Time>)
    ensures Filter(InMinute(m), times) == Filter((t: Time) => Minute(t) == m, times)
  {
    FilterSame(InMinute(m), (t: Time) => Minute(t) == m, times);
  }

  lemma LastIsLive(times: seq<Time>, windowH: int)
    requires times != []
    ensures times[|times| - 1] in Windows.Survivors(times, windowH * 3600 * 1_000_000_000)
  {
    var before, at := times[..|times| - 1], times[|times| - 1];
    assert times == before + [at];
    Windows.SurvivorsSnoc(before, at, windowH * 3600 * 1_000_000_000);
  }

  lemma ThresholdIff(counts: seq<real>, i: nat, sigma: real, sqrt: real -> real)
    requires IsSqrt(sqrt) && sigma >= 0.0 && i < |counts|
    ensures Exceeds(counts[i], Mean(counts), sqrt(Variance(counts)), sigma)
       <==> OverThreshold(counts, counts[i], sigma)
  {
    VarianceNonNegative(counts);
    if |counts| >= 2 {
      ExceedsIff(counts, i, sqrt(Variance(counts)), sigma);
    } else {
      RootSign(sqrt(0.0));
    }
  }

  // The bound is attained

  /** `c` events at the start of minute k. */
  function Block(c: nat, k: int): (r: seq<Time>)
    ensures |r| == c && forall t <- r :: t == k * MINUTE
  {
    seq(c, i => k * MINUTE)
  }

  /** `base` events in each of these minutes, in order. */
  function Row(minutes: seq<int>, base: nat): seq<Time> {
    if minutes == [] then [] else Row(minutes[..|minutes| - 1], base) + Block(base, minutes[|minutes| - 1])
  }

  /** The same, and `extra` more in the last one. */
  function PeakTimes(minutes: seq<int>, base: nat, extra: nat): seq<Time>
    requires minutes != []
  {
    Row(minutes, base) + Block(extra, minutes[|minutes| - 1])
  }

  lemma MinuteOfMultiple(k: int)
    ensures Minute(k * MINUTE) == k
  {
    assert k * MINUTE == (k * 60) * SECOND;
    assert (k * MINUTE) / SECOND == k * 60;
    if k >= 0 {
      assert (k * 60) / 60 == k;
    } else {
      assert (-(k * 60)) / 60 == -k;
    }
  }

  lemma {:induction false} CountBlock(times: seq<Time>, c: nat, k: int, m: int)
    ensures CountAt(Buckets(times + Block(c, k)), m) == CountAt(Buckets(times), m) + if m == k then c else 0
  {
    hide CountAt;
    if c == 0 {
      assert times + Block(c, k) == times;
    } else {
      CountBlock(times, c - 1, k, m);
      assert Buckets(times + Block(c, k)) == Buckets(times + Block(c - 1, k)) + [Bucket(1, k * MINUTE)];
      CountSnoc(Buckets(times + Block(c - 1, k)), Bucket(1, k * MINUTE), m);
      MinuteOfMultiple(k);
    }
  }

  lemma {:induction false} BlockMinutes(times: seq<Time>, c: nat, k: int)
    ensures Minutes(Buckets(times + Block(c, k))) == Minutes(Buckets(times)) + if c > 0 then {k} else {}
  {
    hide Minutes;
    if c == 0 {
      assert times + Block(c, k) == times;
    } else {
      BlockMinutes(times, c - 1, k);
      assert Buckets(times + Block(c, k)) == Buckets(times + Block(c - 1, k)) + [Bucket(1, k * MINUTE)];
      MinutesSnoc(Buckets(times + Block(c - 1, k)), Bucket(1, k * MINUTE));
      MinuteOfMultiple(k);
    }
  }

  lemma EmptyCounts()
    ensures Minutes(Buckets([])) == {}
    ensures forall m :: CountAt(Buckets([]), m) == 0
  {
  }

  lemma RowSnoc(minutes: seq<int>, base: nat)
    requires minutes != [] && Distinct(minutes)
    ensures var front, last := minutes[..|minutes| - 1], minutes[|minutes| - 1];
      && Row(minutes, base) == Row(front, base) + Block(base, last)
      && Distinct(front) && last !in front
      && (forall m :: m in minutes <==> m in front || m == last)
  {
    assert minutes == minutes[..|minutes| - 1] + [minutes[|minutes| - 1]];
  }

  lemma {:induction false} RowCounts(minutes: seq<int>, base: nat)
    requires base > 0 && Distinct(minutes)
    ensures |Row(minutes, base)| == |minutes| * base
    ensures forall m :: CountAt(Buckets(Row(minutes, base)), m) == if m in minutes then base else 0
    ensures Minutes(Buckets(Row(minutes, base))) == set m | m in minutes
  {
    hide CountAt, Minutes;
    if minutes == [] {
      EmptyCounts();
    } else {
      var front, last := minutes[..|minutes| - 1], minutes[|minutes| - 1];
      hide Distinct, Row;
      RowSnoc(minutes, base);
      RowCounts(front, base);
      BlockMinutes(Row(front, base), base, last);
      forall m
        ensures CountAt(Buckets(Row(minutes, base)), m) == if m in minutes then base else 0
      {
        CountBlock(Row(front, base), base, last, m);
      }
      assert (|minutes| - 1) * base + base == |minutes| * base;
    }
  }

  lemma PeakCounts(minutes: seq<int>, base: nat, extra: nat)
    requires minutes != [] && base >= 1 && Distinct(minutes)
    ensures |PeakTimes(minutes, base, extra)| == |minutes| * base + extra
    ensures forall m :: (CountAt(Buckets(PeakTimes(minutes, base, extra)), m)
      == (if m in minutes then base else 0) + (if m == minutes[|minutes| - 1] then extra else 0))
    ensures Minutes(Buckets(PeakTimes(minutes, base, extra))) == set m | m in minutes
  {
    hide CountAt, Minutes, Row;
    var last := minutes[|minutes| - 1];
    RowCounts(minutes, base);
    BlockMinutes(Row(minutes, base), extra, last);
    forall m
      ensures CountAt(Buckets(PeakTimes(minutes, base, extra)), m)
        == (if m in minutes then base else 0) + (if m == last then extra else 0)
    {
      CountBlock(Row(minutes, base), extra, last, m);
    }
  }

  /**
   When all minutes but the current one have the same count and that one has more,
   the window is flagged exactly when n sigma^2 < (n - 1)^2.
   */
  lemma EqualMinutesFlagged(window: seq<Bucket>, at: Time, base: nat, extra: nat, sigma: real, sqrt: real -> real)
    requires IsSqrt(sqrt) && sigma >= 0.0 && extra >= 1
    requires |window| >= MIN_SAMPLES && Minute(at) in Minutes(window) && |Minutes(window)| >= 2
    requires forall m <- Minutes(window) :: CountAt(window, m) == base + if m == Minute(at) then extra else 0
    ensures Spikes(window, at, sigma, sqrt)
       <==> (|Minutes(window)| as real) * Sq(sigma) < Sq((|Minutes(window)| - 1) as real)
  {
    hide Sq, Mean, Variance, Exceeds, Minute, CountAt, Minutes, CountsIn, Enumerates;
    var order := CurrentLast(window, Minute(at), base, extra);
    OrderDoesNotMatter(window, order, at, sigma, sqrt);
    var counts := CountsIn(window, order);
    VarianceNonNegative(counts);
    PeakFlagged(|counts|, base as real, extra as real, sqrt(Variance(counts)), sigma);
  }

  /** Listed with the current minute last, such counts are a peak. */
  lemma CurrentLast(window: seq<Bucket>, current: int, base: nat, extra: nat) returns (order: seq<int>)
    requires current in Minutes(window)
    requires forall m <- Minutes(window) :: CountAt(window, m) == base + if m == current then extra else 0
    ensures Enumerates(order, Minutes(window)) && |order| == |Minutes(window)|
    ensures CountsIn(window, order) == Peak(|order|, base as real, extra as real)
  {
    hide CountAt, Minutes, Enumerates;
    var others := SomeOrder(Minutes(window) - {current});
    SomeOrderEnumerates(Minutes(window) - {current});
    order := others + [current];
    EnumeratesSnoc(others, Minutes(window), current);
    forall i | 0 <= i < |order|
      ensures CountAt(window, order[i]) == base + if i == |order| - 1 then extra else 0
    {
      if i < |order| - 1 {
        EnumeratesAt(others, Minutes(window) - {current}, i);
      }
    }
  }

  /** Such records are flagged exactly when n sigma^2 < (n - 1)^2. */
  lemma PeakFlaggedIff(minutes: seq<int>, base: nat, extra: nat, sigma: real, sqrt: real -> real)
    requires IsSqrt(sqrt) && sigma >= 0.0 && Distinct(minutes)
    requires |minutes| >= 2 && base >= 1 && extra >= 1 && |minutes| * base + extra >= MIN_SAMPLES
    ensures |Minutes(Buckets(PeakTimes(minutes, base, extra)))| == |minutes|
    ensures Spikes(Buckets(PeakTimes(minutes, base, extra)), minutes[|minutes| - 1] * MINUTE, sigma, sqrt)
       <==> (|minutes| as real) * Sq(sigma) < Sq((|minutes| - 1) as real)
  {
    hide *;
    var window, last := Buckets(PeakTimes(minutes, base, extra)), minutes[|minutes| - 1];
    PeakCounts(minutes, base, extra);
    BucketCount(PeakTimes(minutes, base, extra));
    MinuteOfMultiple(last);
    DistinctSize(minutes);
    assert forall m <- Minutes(window) :: CountAt(window, m) == base + if m == last then extra else 0;
    EqualMinutesFlagged(window, last * MINUTE, base, extra, sigma, sqrt);
  }

  lemma BucketCount(times: seq<Time>)
    ensures |Buckets(times)| == |times|
  {
  }

  lemma {:induction false} DistinctSize(a: seq<int>)
    requires Distinct(a)
    ensures |set m | m in a| == |a|
  {
    if a != [] {
      DistinctSize(a[1..]);
      assert a == [a[0]] + a[1..];
      assert (set m | m in a) == (set m | m in a[1..]) + {a[0]};
    }
  }

  /** n minutes, counting down. */
  function Down(n: nat): (r: seq<int>)
    ensures |r| == n && forall i :: 0 <= i < n ==> r[i] == n - 1 - i
  {
    seq(n, i => n - 1 - i)
  }

  function Up(n: nat): (r: seq<int>)
    ensures |r| == n && forall i :: 0 <= i < n ==> r[i] == i
  {
    seq(n, i => i)
  }

  /** Records of decreasing times never expire one another. */
  ghost predicate Decreasing(times: seq<Time>) {
    forall i, j :: 0 <= i < j < |times| ==> times[i] >= times[j]
  }

  lemma {:induction false} RowDecreasing(n: nat, k: nat, base: nat)
    requires k <= n
    ensures Decreasing(Row(Down(n)[..k], base)) && AllFrom(Row(Down(n)[..k], base), (n - k) * MINUTE)
  {
    if k > 0 {
      RowDecreasing(n, k - 1, base);
      assert Down(n)[..k][..k - 1] == Down(n)[..k - 1];
      DecreasingConcat(Row(Down(n)[..k - 1], base), base, n - k, n - k + 1);
    }
  }

  ghost predicate AllFrom(times: seq<Time>, t: Time) {
    forall u <- times :: u >= t
  }

  lemma DecreasingConcat(times: seq<Time>, c: nat, k: int, j: int)
    requires k <= j && Decreasing(times) && AllFrom(times, j * MINUTE)
    ensures Decreasing(times + Block(c, k)) && AllFrom(times + Block(c, k), k * MINUTE)
  {
    var all := times + Block(c, k);
    assert k * MINUTE <= j * MINUTE;
    forall i | 0 <= i < |all|
      ensures all[i] == (if i < |times| then times[i] else k * MINUTE) && all[i] >= k * MINUTE
    {
      if i < |times| {
        assert times[i] in times;
      }
    }
  }

  /**
   Over n >= 2 distinct minutes some run of records ends in a report if and only if
   n sigma^2 < (n - 1)^2, whatever the length of the window.
   */
  lemma SpikePossibleIff(n: nat, sigma: real, windowH: int, sqrt: real -> real)
    requires IsSqrt(sqrt) && sigma >= 0.0 && n >= 2 && windowH >= 1
    ensures (exists times :: EndsInSpike(times, n, windowH, sigma, sqrt))
       <==> (n as real) * Sq(sigma) < Sq((n - 1) as real)
  {
    hide Sq, Spikes, EndsInSpike;
    if (n as real) * Sq(sigma) < Sq((n - 1) as real) {
      DownSpikes(n, sigma, windowH, sqrt);
    }
    forall times | EndsInSpike(times, n, windowH, sigma, sqrt)
      ensures (n as real) * Sq(sigma) < Sq((n - 1) as real)
    {
      EndBound(times, n, windowH, sigma, sqrt);
    }
  }

  /** The last of these records reports a spike, over n distinct minutes. */
  ghost predicate EndsInSpike(times: seq<Time>, n: nat, windowH: int, sigma: real, sqrt: real -> real) {
    && times != []
    && |Minutes(WindowAfter(times, windowH))| == n
    && Spikes(WindowAfter(times, windowH), times[|times| - 1], sigma, sqrt)
  }

  lemma EndBound(times: seq<Time>, n: nat, windowH: int, sigma: real, sqrt: real -> real)
    requires IsSqrt(sqrt) && sigma >= 0.0 && EndsInSpike(times, n, windowH, sigma, sqrt)
    ensures (n as real) * Sq(sigma) < Sq((n - 1) as real)
  {
    hide Sq, Spikes, Minute, Filter;
    var window, last := WindowAfter(times, windowH), times[|times| - 1];
    assert window[|window| - 1] == Bucket(1, last);
    assert Minute(last) in Minutes(window);
    SpikeNeedsMinutes(window, last, sigma, sqrt);
  }

  lemma DownSpikes(n: nat, sigma: real, windowH: int, sqrt: real -> real)
    requires IsSqrt(sqrt) && sigma >= 0.0 && n >= 2 && windowH >= 1
    requires (n as real) * Sq(sigma) < Sq((n - 1) as real)
    ensures EndsInSpike(PeakTimes(Down(n), 10, 1), n, windowH, sigma, sqrt)
  {
    hide Sq, Spikes, IsSqrt, Minutes, WindowAfter, Row;
    var times := PeakTimes(Down(n), 10, 1);
    assert Down(n)[..n] == Down(n);
    RowDecreasing(n, n, 10);
    DecreasingConcat(Row(Down(n), 10), 1, 0, 0);
    assert NoneExpires(times, windowH);
    AllHeld(times, windowH);
    PeakFlaggedIff(Down(n), 10, 1, sigma, sqrt);
    assert times[|times| - 1] == Down(n)[n - 1] * MINUTE;
  }

  /**
   Expiry prevents a report: ten minutes of one event and three hours later one minute
   of two are flagged in a window of four hours, and not in one of an hour.
   */
  lemma ExpiryPreventsReport(sqrt: real -> real)
    requires IsSqrt(sqrt)
    ensures var times := PeakTimes(Up(10) + [190], 1, 1);
      && Spikes(WindowAfter(times, 4), 190 * MINUTE, 3.0, sqrt)
      && !Spikes(WindowAfter(times, 1), 190 * MINUTE, 3.0, sqrt)
  {
    hide Sq, Spikes, IsSqrt, Minutes, WindowAfter, Row;
    var times := PeakTimes(Up(10) + [190], 1, 1);
    TenAndLate();
    assert NoneExpires(times, 4);
    AllHeld(times, 4);
    ElevenFlagged();
    PeakFlaggedIff(Up(10) + [190], 1, 1, 3.0, sqrt);
    OnlyTwoLeft(times);
    TooFew(WindowAfter(times, 1), 190 * MINUTE, 3.0, sqrt);
  }

  lemma TooFew(window: seq<Bucket>, at: Time, sigma: real, sqrt: real -> real)
    requires |window| < 10
    ensures !Spikes(window, at, sigma, sqrt)
  {
  }

  lemma TenAndLate()
    ensures var times := PeakTimes(Up(10) + [190], 1, 1);
      && |times| == 12 && times[10] == times[11] == 190 * MINUTE
      && forall i :: 0 <= i < 10 ==> 0 <= times[i] <= 10 * MINUTE
  {
    var minutes := Up(10) + [190];
    assert minutes[..10] == Up(10);
    assert Row(minutes, 1) == Row(Up(10), 1) + Block(1, 190);
    PeakCounts(Up(10), 1, 1);
    WithinTheHour(Up(10));
    forall i | 0 <= i < 10
      ensures 0 <= Row(Up(10), 1)[i] <= 10 * MINUTE
    {
      assert Row(Up(10), 1)[i] in Row(Up(10), 1);
    }
  }

  lemma OnlyTwoLeft(times: seq<Time>)
    requires |times| == 12 && times[10] == times[11] == 190 * MINUTE
    requires forall i :: 0 <= i < 10 ==> 0 <= times[i] <= 10 * MINUTE
    ensures |WindowAfter(times, 1)| == 2
  {
    var ten, eleven, b := times[..10], times[..11], Bucket(1, 190 * MINUTE);
    var late := Live(190 * MINUTE, 1);
    HeldAreRecorded(ten, 1);
    FilterNone(late, WindowAfter(ten, 1));
    assert eleven[..10] == ten && times[..11] == eleven;
    assert WindowAfter(eleven, 1) == Filter(late, WindowAfter(ten, 1)) + [b];
    assert [] + [b] == [b];
    FilterAll(late, [b]);
    assert WindowAfter(times, 1) == Filter(late, WindowAfter(eleven, 1)) + [b];
  }

  /** A window holds nothing but what was recorded. */
  lemma {:induction false} HeldAreRecorded(times: seq<Time>, windowH: int)
    ensures forall b <- WindowAfter(times, windowH) :: b.at in times
  {
    if times != [] {
      var before := times[..|times| - 1];
      HeldAreRecorded(before, windowH);
      FilterMembers(Live(times[|times| - 1], windowH), WindowAfter(before, windowH));
      assert forall t <- before :: t in times;
    }
  }

  /** Ten minutes of one event and one of two, in order: the default threshold flags the eleventh. */
  lemma ElevenMinutesSuffice(windowH: int, sqrt: real -> real)
    requires IsSqrt(sqrt) && windowH >= 1
    ensures |PeakTimes(Up(11), 1, 1)| == 12
    ensures EndsInSpike(PeakTimes(Up(11), 1, 1), 11, windowH, 3.0, sqrt)
  {
    hide Sq, Spikes, IsSqrt, Minutes, WindowAfter, Row;
    var times := PeakTimes(Up(11), 1, 1);
    PeakCounts(Up(11), 1, 1);
    WithinTheHour(Up(11));
    forall i | 0 <= i < |times|
      ensures 0 <= times[i] <= 10 * MINUTE
    {
      assert times[i] in Row(Up(11), 1) || times[i] in Block(1, 10);
    }
    assert NoneExpires(times, windowH);
    AllHeld(times, windowH);
    ElevenFlagged();
    PeakFlaggedIff(Up(11), 1, 1, 3.0, sqrt);
    assert times[|times| - 1] == 10 * MINUTE;
  }

  lemma ElevenFlagged()
    ensures (11 as real) * Sq(3.0) < Sq(10 as real)
  {
  }

  lemma {:induction false} WithinTheHour(minutes: seq<int>)
    requires forall m <- minutes :: 0 <= m <= 10
    ensures forall t <- Row(minutes, 1) :: 0 <= t <= 10 * MINUTE
  {
    if minutes != [] {
      var front, last := minutes[..|minutes| - 1], minutes[|minutes| - 1];
      assert forall m <- front :: m in minutes;
      WithinTheHour(front);
      assert last in minutes && 0 <= last * MINUTE <= 10 * MINUTE;
      assert forall t <- Row(minutes, 1) :: t in Row(front, 1) || t in Block(1, last);
    }
  }

  // The tracker

  class BaselineTracker {
    const windowH: int
    const sigma: real
    const windows: WindowTable<Key, Bucket>
    var baselines: map<Key, Baseline>

    ghost predicate Valid()
      reads windows, windows.Repr
    {
      windows.Valid()
    }

    constructor (windowH: int, sigma: real)
      ensures Valid() && fresh(windows) && windows.Repr == {} && windows.contents == map[]
      ensures this.windowH == windowH && this.sigma == sigma && baselines == map[]
    {
      this.windowH, this.sigma := windowH, sigma;
      windows := new WindowTable();
      baselines := map[];
    }

    method Record(moduleName: string, eventType: string, at: Time, sqrt: real -> real) returns (spike: bool)
      requires Valid() && IsSqrt(sqrt)
      modifies this`baselines, windows, windows.Repr
      ensures Valid() && fresh(windows.Repr - old(windows.Repr))
      ensures var k := Key(moduleName, eventType);
        var window := AfterRecord(old(windows.Items(k)), at, windowH);
        && windows.contents == old(windows.contents)[k := window]
        && spike == Spikes(window, at, sigma, sqrt)
        && baselines == (if |window| < MIN_SAMPLES then old(baselines)
                         else old(baselines)[k := BaselineOf(window, sqrt)])
    {
      hide TestIn, SomeOrder, BaselineOf, Minute, CountAt, IsSqrt, Filter;
      var k := Key(moduleName, eventType);
      var n := windows.PruneAppend(k, Live(at, windowH), Bucket(1, at));
      if n < MIN_SAMPLES {
        spike := false;
      } else {
        spike := Judge(k, windows.contents[k], at, sqrt);
      }
    }

    method Judge(k: Key, ghost window: seq<Bucket>, at: Time, sqrt: real -> real) returns (spike: bool)
      requires Valid() && IsSqrt(sqrt)
      requires k in windows.contents && windows.contents[k] == window
      requires window != [] && window[|window| - 1] == Bucket(1, at)
      modifies this`baselines
      ensures spike == TestIn(window, SomeOrder(Minutes(window)), at, sigma, sqrt)
      ensures baselines == old(baselines)[k := BaselineOf(window, sqrt)]
    {
      hide TestIn, SomeOrder, BaselineOf, Minute, CountAt, IsSqrt;
      assert Minute(at) in Minutes(window);
      var minuteMap := PerMinute(windows.entries[k], window);
      var mean, stddev;
      mean, stddev, spike := Test(window, minuteMap, at, sqrt);
      StoreBaseline(k, Baseline(mean, stddev));
    }

    method StoreBaseline(k: Key, b: Baseline)
      modifies this`baselines
      ensures baselines == old(baselines)[k := b]
    {
      baselines := baselines[k := b];
    }

    /** The statistics over the minutes, and the comparison. */
    method Test(ghost window: seq<Bucket>, minuteMap: map<int, nat>, at: Time, sqrt: real -> real)
      returns (mean: real, stddev: real, spike: bool)
      requires IsSqrt(sqrt) && Minute(at) in Minutes(window)
      requires minuteMap.Keys == Minutes(window)
      requires forall m <- minuteMap :: minuteMap[m] == CountAt(window, m)
      ensures spike == TestIn(window, SomeOrder(Minutes(window)), at, sigma, sqrt)
      ensures Baseline(mean, stddev) == BaselineOf(window, sqrt)
    {
      hide Sq, Mean, Variance, Minute, CountAt, Minutes;
      var counts, order := RangeOver(window, minuteMap);
      mean, stddev := MeanStddev(counts, sqrt);
      var currentRate := minuteMap[Minute(at)] as real;
      OrderDoesNotMatter(window, order, at, sigma, sqrt);
      VarianceNonNegative(counts);
      SqrtUnique(stddev, sqrt(Variance(counts)));
      spike := stddev > 0.0 && (currentRate - mean) / stddev > sigma;
    }

    /** The buckets of one key, added up by minute. */
    static method PerMinute(s: Slice<Bucket>, ghost window: seq<Bucket>) returns (minuteMap: map<int, nat>)
      requires s.len <= s.data.Length && s.data[..s.len] == window
      ensures minuteMap.Keys == Minutes(window)
      ensures forall m <- minuteMap :: minuteMap[m] == CountAt(window, m)
    {
      minuteMap := map[];
      for i := 0 to s.len
        invariant minuteMap.Keys == Minutes(window[..i])
        invariant forall m :: CountAt(window[..i], m) == if m in minuteMap then minuteMap[m] else 0
      {
        var b := s.data[i];
        assert b == window[i] by { assert s.data[..s.len][i] == b; }
        assert window[..i + 1] == window[..i] + [b];
        assert window[..i + 1][..i] == window[..i];
        var min := Minute(b.at);
        minuteMap := minuteMap[min := b.count + if min in minuteMap then minuteMap[min] else 0];
      }
      assert window[..s.len] == window;
    }

    /** Ranging over the map, in whatever order. */
    method RangeOver(
      ghost window: seq<Bucket>, minuteMap: map<int, nat>) returns (counts: seq<real>, ghost order: seq<int>)
      requires minuteMap.Keys == Minutes(window)
      requires forall m <- minuteMap :: minuteMap[m] == CountAt(window, m)
      ensures Enumerates(order, Minutes(window)) && counts == CountsIn(window, order)
    {
      counts, order := [], [];
      var left := minuteMap.Keys;
      while left != {}
        invariant left <= minuteMap.Keys
        invariant Enumerates(order, minuteMap.Keys - left)
        invariant counts == CountsIn(window, order)
      {
        var m :| m in left;
        counts := counts + [minuteMap[m] as real];
        order := order + [m];
        left := left - {m};
      }
    }
  }

  lemma SqrtUnique(a: real, b: real)
    requires a >= 0.0 && b >= 0.0 && Sq(a) == Sq(b)
    ensures a == b
  {
    if a < b {
      SquareGrows(a, b);
    } else if b < a {
      SquareGrows(b, a);
    }
  }
}
