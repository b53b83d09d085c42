/**
 meanStddev of internal/anomaly/detector.go over exact reals, and the bound it
 puts on how far a single value can lie above the mean.
 */
module Stats {
  import Seqs

  function Sq(x: real): real {
    x * x
  }

  function Sum(s: seq<real>): real {
    if s == [] then 0.0 else s[0] + Sum(s[1..])
  }

  /** The sum of squared distances from m. */
  function SumSq(s: seq<real>, m: real): real {
    if s == [] then 0.0 else Sq(s[0] - m) + SumSq(s[1..], m)
  }

  function Mean(s: seq<real>): real {
    if s == [] then 0.0 else Sum(s) / (|s| as real)
  }

  /** The sample variance: the divisor is n - 1. */
  function Variance(s: seq<real>): real {
    if |s| <= 1 then 0.0 else SumSq(s, Mean(s)) / ((|s| - 1) as real)
  }

  /** math.Sqrt, exactly. */
  ghost predicate IsSqrt(sqrt: real -> real) {
    forall v {:trigger sqrt(v)} :: v >= 0.0 ==> sqrt(v) >= 0.0 && Sq(sqrt(v)) == v
  }

  /** A value lies more than sigma deviations above the mean. */
  predicate Exceeds(value: real, mean: real, stddev: real, sigma: real) {
    stddev > 0.0 && (value - mean) / stddev > sigma
  }

  method MeanStddev(values: seq<real>, sqrt: real -> real) returns (mean: real, stddev: real)
    requires IsSqrt(sqrt)
    ensures mean == Mean(values)
    ensures stddev >= 0.0 && Sq(stddev) == Variance(values)
  {
    if |values| == 0 {
      return 0.0, 0.0;
    }
    hide Sq, Sum, SumSq;
    var sum := Total(values);
    mean := sum / (|values| as real);
    if |values| == 1 {
      ZeroRoot();
      return mean, 0.0;
    }
    var variance := TotalSq(values, mean);
    SumSqNonNegative(values, mean);
    QuotientNonNegative(variance, (|values| - 1) as real);
    variance := variance / ((|values| - 1) as real);
    stddev := sqrt(variance);
  }

  /** The first accumulator loop. */
  method Total(values: seq<real>) returns (sum: real)
    ensures sum == Sum(values)
  {
    sum := 0.0;
    for i := 0 to |values|
      invariant sum == Sum(values[..i])
    {
      SumSnoc(values[..i], values[i]);
      assert values[..i + 1] == values[..i] + [values[i]];
      sum := sum + values[i];
    }
    assert values[..|values|] == values;
  }

  /** The second one. */
  method TotalSq(values: seq<real>, mean: real) returns (sum: real)
    ensures sum == SumSq(values, mean)
  {
    hide Sq;
    sum := 0.0;
    for i := 0 to |values|
      invariant sum == SumSq(values[..i], mean)
    {
      SumSqSnoc(values[..i], values[i], mean);
      assert values[..i + 1] == values[..i] + [values[i]];
      var d := values[i] - mean;
      Squared(d);
      sum := sum + d * d;
    }
    assert values[..|values|] == values;
  }

  lemma Squared(d: real)
    ensures d * d == Sq(d)
  {
  }

  lemma ZeroRoot()
    ensures Sq(0.0) == 0.0
  {
  }

  // Real arithmetic, one fact at a time

  lemma Square(x: real)
    ensures Sq(x) >= 0.0
    ensures x > 0.0 ==> Sq(x) > 0.0
    ensures x == 0.0 ==> Sq(x) == 0.0
    ensures Sq(-x) == Sq(x)
  {
    if x > 0.0 {
      PositiveFactors(x, x, Sq(x));
    } else if x < 0.0 {
      PositiveFactors(-x, -x, Sq(x));
    }
  }

  lemma PositiveFactors(a: real, b: real, c: real)
    requires a > 0.0 && b > 0.0 && c == a * b
    ensures c > 0.0
  {
  }

  lemma SquareOfProduct(a: real, b: real)
    ensures Sq(a * b) == Sq(a) * Sq(b)
  {
    assert (a * b) * (a * b) == a * (b * (a * b));
    assert b * (a * b) == a * (b * b);
  }

  lemma SquareGrows(a: real, b: real)
    requires 0.0 <= a <= b
    ensures Sq(a) <= Sq(b)
    ensures a < b ==> Sq(a) < Sq(b)
  {
    var c := b - a;
    assert c * a >= 0.0 && c * b >= 0.0;
    if a < b {
      assert c * b > 0.0;
    }
    assert b * b == c * b + c * a + a * a;
  }

  lemma ProductPositive(a: real, b: real)
    requires a > 0.0 && b > 0.0
    ensures a * b > 0.0
  {
  }

  lemma ProductNonNegative(a: real, b: real)
    requires a >= 0.0 && b >= 0.0
    ensures a * b >= 0.0
  {
  }

  lemma QuotientNonNegative(a: real, b: real)
    requires a >= 0.0 && b > 0.0
    ensures a / b >= 0.0
    ensures a > 0.0 ==> a / b > 0.0
  {
  }

  lemma ZeroFactor(r: real, x: real)
    requires r > 0.0 && r * x == 0.0
    ensures x == 0.0
  {
  }

  lemma Regroup(a: real, b: real, c: real)
    ensures a * (b * c) == (b * a) * c
  {
  }

  lemma CancelFactor(k: real, a: real, b: real)
    requires k > 0.0 && k * a <= k * b
    ensures a <= b
  {
  }

  lemma Divided(a: real, n: real)
    requires n != 0.0
    ensures (a / n) * n == a
  {
  }

  lemma ScaleUp(a: real, b: real, d: real)
    requires d > 0.0
    ensures b > a <==> b * d > a * d
  {
    if b > a {
      assert (b - a) * d > 0.0;
      assert (b - a) * d == b * d - a * d;
    } else {
      assert (a - b) * d >= 0.0;
      assert (a - b) * d == a * d - b * d;
    }
  }

  // Sums

  lemma {:induction false} SumSnoc(s: seq<real>, x: real)
    ensures Sum(s + [x]) == Sum(s) + x
  {
    if s == [] {
      assert s + [x] == [x];
    } else {
      SumSnoc(s[1..], x);
      assert (s + [x])[1..] == s[1..] + [x];
    }
  }

  lemma {:induction false} SumSqSnoc(s: seq<real>, x: real, m: real)
    ensures SumSq(s + [x], m) == SumSq(s, m) + Sq(x - m)
  {
    if s == [] {
      assert s + [x] == [x];
    } else {
      SumSqSnoc(s[1..], x, m);
      assert (s + [x])[1..] == s[1..] + [x];
    }
  }

  lemma {:induction false} SumSqNonNegative(s: seq<real>, m: real)
    ensures SumSq(s, m) >= 0.0
  {
    if s != [] {
      SumSqNonNegative(s[1..], m);
      Square(s[0] - m);
    }
  }

  /** Taking one value out. */
  lemma {:induction false} SumWithout(s: seq<real>, i: nat, m: real)
    requires i < |s|
    ensures Sum(s) == s[i] + Sum(s[..i] + s[i + 1..])
    ensures SumSq(s, m) == Sq(s[i] - m) + SumSq(s[..i] + s[i + 1..], m)
  {
    var rest := s[..i] + s[i + 1..];
    if i == 0 {
      assert rest == s[1..];
    } else {
      SumWithout(s[1..], i - 1, m);
      assert rest[1..] == s[1..][..i - 1] + s[1..][i..];
    }
  }

  /** The distances from m. */
  lemma {:induction false} SumShift(s: seq<real>, m: real) returns (d: seq<real>)
    ensures |d| == |s| && Sum(d) == Sum(s) - (|s| as real) * m
    ensures SumSq(d, 0.0) == SumSq(s, m)
  {
    hide Sq;
    if s == [] {
      d := [];
      Nothing(m);
    } else {
      var rest := SumShift(s[1..], m);
      d := [s[0] - m] + rest;
      assert d[1..] == rest;
      StepUp(|s| as real, m);
    }
  }

  lemma Nothing(x: real)
    ensures 0.0 * x == 0.0
  {
  }

  lemma StepUp(n: real, x: real)
    ensures n * x == x + (n - 1.0) * x
  {
  }

  /** Cauchy-Schwarz against the constant vector. */
  lemma {:induction false} SquareOfSum(d: seq<real>)
    ensures Sq(Sum(d)) <= (|d| as real) * SumSq(d, 0.0)
  {
    if d != [] {
      SquareOfSum(d[1..]);
      SumSqNonNegative(d[1..], 0.0);
      OneMoreTerm((|d| - 1) as real, Sum(d[1..]), SumSq(d[1..], 0.0), d[0], |d| == 1);
    }
  }

  lemma OneMoreTerm(k: real, s: real, q: real, x: real, first: bool)
    requires Sq(s) <= k * q && q >= 0.0
    requires if first then k == 0.0 && s == 0.0 else k > 0.0
    ensures Sq(x + s) <= (k + 1.0) * (Sq(x - 0.0) + q)
  {
    if !first {
      var e := s - k * x;
      assert e * e >= 0.0;
      assert e * e == s * s - 2.0 * (k * (s * x)) + k * (k * (x * x));
      CancelFactor(k, 2.0 * (s * x), q + k * (x * x));
      assert (x + s) * (x + s) == x * x + 2.0 * (s * x) + s * s;
      assert (k + 1.0) * (x * x + q) == k * (x * x) + k * q + x * x + q;
    } else {
      assert (k + 1.0) * (x * x + q) == x * x + q;
    }
  }

  lemma MeanTimes(v: seq<real>)
    requires v != []
    ensures (|v| as real) * Mean(v) == Sum(v)
  {
  }

  lemma VarianceTimes(v: seq<real>)
    requires |v| >= 2
    ensures Variance(v) * ((|v| - 1) as real) == SumSq(v, Mean(v))
  {
    hide Sq, Sum, SumSq, Mean;
    Divided(SumSq(v, Mean(v)), (|v| - 1) as real);
  }

  lemma PositiveVariance(v: seq<real>)
    requires Variance(v) > 0.0
    ensures |v| >= 2
  {
  }

  /** Samuelson's inequality: n (v[i] - mean)^2 <= (n - 1) * sum of squares. */
  lemma Samuelson(v: seq<real>, i: nat)
    requires i < |v|
    ensures (|v| as real) * Sq(v[i] - Mean(v)) <= ((|v| - 1) as real) * SumSq(v, Mean(v))
  {
    hide *;
    var n, m := |v| as real, Mean(v);
    var rest := v[..i] + v[i + 1..];
    MeanTimes(v);
    SumWithout(v, i, m);
    var d := SumShift(rest, m);
    SquareOfSum(d);
    var k := |rest| as real;
    assert |d| as real == k && k == n - 1.0 && ((|v| - 1) as real) == k;
    SamuelsonArithmetic(n, k, m, v[i], Sum(v), Sum(rest), Sum(d), SumSq(rest, m), SumSq(v, m));
  }

  lemma SamuelsonArithmetic(
    n: real, k: real, m: real, y: real, sum: real, sumRest: real, sumDist: real, q: real, all: real)
    requires k == n - 1.0 && n * m == sum && sum == y + sumRest && sumDist == sumRest - k * m
    requires Sq(sumDist) <= k * q
    requires all == Sq(y - m) + q
    ensures n * Sq(y - m) <= k * all
  {
    hide *;
    StepUp(n, m);
    assert sumDist == -(y - m);
    Square(y - m);
    StepUp(n, Sq(y - m));
    assert k * (Sq(y - m) + q) == k * Sq(y - m) + k * q;
  }

  /** The division and the root removed: what the test compares is squares. */
  lemma ExceedsSquared(value: real, mean: real, stddev: real, sigma: real)
    requires sigma >= 0.0 && stddev >= 0.0
    ensures Exceeds(value, mean, stddev, sigma)
       <==> stddev > 0.0 && value > mean && Sq(value - mean) > Sq(sigma) * Sq(stddev)
  {
    hide Sq;
    if stddev > 0.0 {
      SquareOfProduct(sigma, stddev);
      Divided(value - mean, stddev);
      ScaleUp(sigma, (value - mean) / stddev, stddev);
      assert sigma * stddev >= 0.0;
      CompareSquares(value - mean, sigma * stddev);
    }
  }

  lemma CompareSquares(x: real, t: real)
    requires t >= 0.0
    ensures x > t <==> x > 0.0 && Sq(x) > Sq(t)
  {
    hide Sq;
    if x > t {
      SquareGrows(t, x);
    } else if x > 0.0 {
      SquareGrows(x, t);
    }
  }

  /**
   The bound on the spike test: whatever the values, if one of n of them exceeds
   the mean by more than sigma sample deviations then n sigma^2 < (n - 1)^2.
   */
  lemma SpikeBound(v: seq<real>, i: nat, stddev: real, sigma: real)
    requires i < |v| && sigma >= 0.0
    requires stddev >= 0.0 && Sq(stddev) == Variance(v)
    requires Exceeds(v[i], Mean(v), stddev, sigma)
    ensures (|v| as real) * Sq(sigma) < Sq((|v| - 1) as real)
  {
    hide *;
    ExceedsSquared(v[i], Mean(v), stddev, sigma);
    Square(stddev);
    Square(sigma);
    PositiveVariance(v);
    VarianceTimes(v);
    Samuelson(v, i);
    BoundArithmetic(|v| as real, (|v| - 1) as real, Sq(v[i] - Mean(v)), SumSq(v, Mean(v)), Sq(sigma), Sq(stddev));
  }

  lemma BoundArithmetic(n: real, k: real, xx: real, q: real, ss: real, w: real)
    requires n > 0.0 && k > 0.0 && q == w * k && w > 0.0 && ss >= 0.0
    requires n * xx <= k * q && xx > ss * w
    ensures n * ss < Sq(k)
  {
    ScaleUp(ss * w, xx, n);
    assert k * q == (k * k) * w;
    assert n * (ss * w) == (n * ss) * w;
    ScaleUp(n * ss, k * k, w);
  }

  // Raising one value

  /** The sum of the distances from m. */
  function SumDev(s: seq<real>, m: real): real {
    if s == [] then 0.0 else (s[0] - m) + SumDev(s[1..], m)
  }

  /** n times x, added up. */
  function Times(n: nat, x: real): real {
    if n == 0 then 0.0 else x + Times(n - 1, x)
  }

  function Product(a: real, b: real): real {
    a * b
  }

  lemma TimesProduct(n: nat, x: real)
    ensures Times(n, x) == Product(n as real, x)
  {
    TimesIs(n, x);
  }

  lemma {:induction false} TimesIs(n: nat, x: real)
    ensures Times(n, x) == (n as real) * x
  {
    if n > 0 {
      TimesIs(n - 1, x);
      StepUp(n as real, x);
    }
  }

  /** The squared distances from another point. */
  lemma {:induction false} SumSqShift(s: seq<real>, m: real, e: real)
    ensures SumSq(s, m + e) == SumSq(s, m) - 2.0 * Product(e, SumDev(s, m)) + Times(|s|, Sq(e))
  {
    hide Sq, Product;
    if s == [] {
      Vanishes(e, SumDev(s, m));
    } else {
      SumSqShift(s[1..], m, e);
      SquareOfDifference(s[0] - m, e);
      SameSquare(s[0] - (m + e), s[0] - m - e);
      Spread(e, SumDev(s, m), s[0] - m, SumDev(s[1..], m));
    }
  }

  lemma Vanishes(x: real, y: real)
    requires y == 0.0
    ensures Product(x, y) == 0.0
  {
  }

  lemma SquareOfDifference(x: real, e: real)
    ensures Sq(x - e) == Sq(x) - 2.0 * Product(e, x) + Sq(e)
  {
  }

  lemma Spread(e: real, c: real, a: real, b: real)
    requires c == a + b
    ensures Product(e, c) == Product(e, a) + Product(e, b)
  {
  }

  lemma {:induction false} SumDevIs(s: seq<real>, m: real)
    ensures SumDev(s, m) == Sum(s) - Times(|s|, m)
  {
    if s != [] {
      SumDevIs(s[1..], m);
    }
  }

  /** The others lie as far below the mean, in sum, as one value lies above it. */
  lemma OthersBalance(v: seq<real>, i: nat)
    requires i < |v|
    ensures SumDev(v[..i] + v[i + 1..], Mean(v)) == -(v[i] - Mean(v))
  {
    hide *;
    var rest, m := v[..i] + v[i + 1..], Mean(v);
    SumDevIs(rest, m);
    SumWithout(v, i, m);
    MeanTimes(v);
    TimesIs(|v|, m);
    OneMoreTime(|rest|, m);
  }

  lemma OneMoreTime(n: nat, x: real)
    ensures Times(n + 1, x) == x + Times(n, x)
  {
  }

  /** u is v with v[i] raised by |v| e. */
  ghost predicate Raised(v: seq<real>, u: seq<real>, i: nat, e: real) {
    i < |v| && u == v[i := v[i] + Times(|v|, e)]
  }

  lemma RaisedFacts(v: seq<real>, u: seq<real>, i: nat, e: real)
    requires Raised(v, u, i, e)
    ensures i < |v| == |u| && u[i] == v[i] + Times(|v|, e)
    ensures u[..i] + u[i + 1..] == v[..i] + v[i + 1..]
  {
  }

  /** Raising v[i] by |v| e moves the mean by e. */
  lemma RaisedMean(v: seq<real>, u: seq<real>, i: nat, e: real)
    requires Raised(v, u, i, e)
    ensures Mean(u) == Mean(v) + e
  {
    hide *;
    RaisedFacts(v, u, i, e);
    SumWithout(v, i, 0.0);
    SumWithout(u, i, 0.0);
    MeanTimes(v);
    MeanTimes(u);
    TimesIs(|v|, e);
    SameFactor(|v| as real, Mean(u), Mean(v), e, Sum(u), Sum(v));
  }

  lemma SameFactor(n: real, a: real, b: real, e: real, p: real, q: real)
    requires n > 0.0 && n * a == p && n * b == q && p == q + n * e
    ensures a == b + e
  {
    assert n * (b + e) == n * b + n * e;
    CancelEqual(n, a, b + e);
  }

  /** Its distance from the mean then grows by the other |v| - 1 times e. */
  lemma RaisedValue(v: seq<real>, u: seq<real>, i: nat, e: real)
    requires Raised(v, u, i, e)
    ensures i < |v| == |u| && u[i] - Mean(u) == (v[i] - Mean(v)) + Times(|v| - 1, e)
  {
    hide *;
    RaisedFacts(v, u, i, e);
    RaisedMean(v, u, i, e);
    OneMoreTime(|v| - 1, e);
  }

  function Gain(e: real, x: real, k: real): real {
    2.0 * (e * x) + k * Sq(e)
  }

  /** The squared distances have grown to q2 and one of them from x to y, in proportion n to k. */
  predicate Proportional(n: real, k: real, q: real, q2: real, x: real, y: real, g: real) {
    q2 == q + n * g && k * Sq(y) == k * Sq(x) + Sq(k) * g
  }

  /** The squared distances grow in proportion with the square of the value's own distance. */
  lemma RaisedSquares(v: seq<real>, u: seq<real>, i: nat, e: real)
    requires Raised(v, u, i, e) && i < |v| == |u|
    ensures Proportional(|v| as real, (|v| - 1) as real, SumSq(v, Mean(v)), SumSq(u, Mean(u)), v[i] - Mean(v),
      u[i] - Mean(u), Gain(e, v[i] - Mean(v), (|v| - 1) as real))
  {
    hide *;
    var rest := v[..i] + v[i + 1..];
    var x, y, q, r := v[i] - Mean(v), u[i] - Mean(u), SumSq(rest, Mean(v)), SumSq(rest, Mean(u));
    RaisedFacts(v, u, i, e);
    SquaresSplit(v, i, rest, x, q);
    SquaresSplit(u, i, rest, y, r);
    RaisedMean(v, u, i, e);
    RaisedValue(v, u, i, e);
    OthersShift(v, i, rest, e, q, r);
    Assembled(|v|, x, e, y, q, r);
  }

  lemma SquaresSplit(v: seq<real>, i: nat, rest: seq<real>, x: real, q: real)
    requires i < |v| && rest == v[..i] + v[i + 1..] && x == v[i] - Mean(v) && q == SumSq(rest, Mean(v))
    ensures SumSq(v, Mean(v)) == Sq(x) + q
  {
    hide *;
    SumWithout(v, i, Mean(v));
    SameSquare(x, v[i] - Mean(v));
  }

  lemma OthersShift(v: seq<real>, i: nat, rest: seq<real>, e: real, q: real, r: real)
    requires i < |v| && rest == v[..i] + v[i + 1..]
    requires q == SumSq(rest, Mean(v)) && r == SumSq(rest, Mean(v) + e)
    ensures r == q - 2.0 * Product(e, -(v[i] - Mean(v))) + Times(|v| - 1, Sq(e))
  {
    hide *;
    SumSqShift(rest, Mean(v), e);
    OthersBalance(v, i);
  }

  lemma Assembled(n: nat, x: real, e: real, y: real, q: real, r: real)
    requires n >= 1 && y == x + Times(n - 1, e)
    requires r == q - 2.0 * Product(e, -x) + Times(n - 1, Sq(e))
    ensures Proportional(n as real, (n - 1) as real, Sq(x) + q, Sq(y) + r, x, y, Gain(e, x, (n - 1) as real))
  {
    hide *;
    TimesProduct(n - 1, e);
    TimesProduct(n - 1, Sq(e));
    Sizes(n);
    Growth((n - 1) as real, x, e, y, q, r, -x, n as real, Times(n - 1, e), Times(n - 1, Sq(e)));
  }

  predicate OneLess(k: real, n: real) {
    n == k + 1.0
  }

  lemma Sizes(n: nat)
    requires n >= 1
    ensures OneLess((n - 1) as real, n as real)
  {
  }

  lemma Growth(k: real, x: real, e: real, y: real, q: real, r: real, dev: real, n: real, te: real, tee: real)
    requires y == x + te && te == Product(k, e) && tee == Product(k, Sq(e))
    requires dev == -x && r == q - 2.0 * Product(e, dev) + tee && OneLess(k, n)
    ensures Proportional(n, k, Sq(x) + q, Sq(y) + r, x, y, Gain(e, x, k))
  {
    hide Sq, Gain, OneLess;
    var g := Gain(e, x, k);
    GainIs(e, x, k, tee);
    GrowthOfSquare(k, x, e, y, g);
    Opposite(e, x, dev);
    NTimes(k, n, g);
    KTimes(k, Sq(x), g);
    SameProduct(k, Sq(y), Sq(x) + k * g);
  }

  lemma GainIs(e: real, x: real, k: real, tee: real)
    requires tee == k * Sq(e)
    ensures Gain(e, x, k) == 2.0 * (e * x) + tee
  {
  }

  lemma Opposite(e: real, x: real, dev: real)
    requires dev == -x
    ensures e * dev == -(e * x)
  {
  }

  lemma NTimes(k: real, n: real, g: real)
    requires OneLess(k, n)
    ensures n * g == k * g + g
  {
  }

  lemma SameProduct(k: real, a: real, b: real)
    requires a == b
    ensures k * a == k * b
  {
  }

  lemma GrowthOfSquare(k: real, x: real, e: real, y: real, g: real)
    requires y == x + k * e && g == Gain(e, x, k)
    ensures Sq(y) == Sq(x) + k * g
  {
    assert Sq(y) == Sq(x) + 2.0 * ((k * e) * x) + (k * e) * (k * e);
    assert (k * e) * (k * e) == k * (k * Sq(e)) && (k * e) * x == k * (e * x);
    assert k * g == 2.0 * (k * (e * x)) + k * (k * Sq(e));
  }

  lemma KTimes(k: real, xx: real, g: real)
    ensures k * (xx + k * g) == k * xx + Sq(k) * g
  {
  }

  /** The test with division and root removed: k x^2 against sigma^2 times the squared distances. */
  lemma ExceedsIff(v: seq<real>, i: nat, stddev: real, sigma: real)
    requires i < |v| && |v| >= 2 && sigma >= 0.0
    requires stddev >= 0.0 && Sq(stddev) == Variance(v)
    ensures Exceeds(v[i], Mean(v), stddev, sigma) <==>
      (v[i] > Mean(v) && ((|v| - 1) as real) * Sq(v[i] - Mean(v)) > Sq(sigma) * SumSq(v, Mean(v)))
  {
    hide *;
    ExceedsSquared(v[i], Mean(v), stddev, sigma);
    VarianceTimes(v);
    Rescaled((|v| - 1) as real, Sq(v[i] - Mean(v)), Sq(sigma), Variance(v), SumSq(v, Mean(v)));
    if v[i] > Mean(v) {
      PositiveSquares(v, i);
      SignOfProduct((|v| - 1) as real, Variance(v));
      Commuted((|v| - 1) as real, Variance(v));
    }
    RootSign(stddev);
  }

  lemma Commuted(a: real, b: real)
    ensures a * b == b * a
  {
  }

  lemma Rescaled(k: real, xx: real, ss: real, w: real, q: real)
    requires k > 0.0 && w * k == q
    ensures xx > ss * w <==> k * xx > ss * q
  {
    ScaleUp(ss * w, xx, k);
    assert (ss * w) * k == ss * (w * k);
  }

  lemma RootSign(s: real)
    requires s >= 0.0
    ensures s > 0.0 <==> Sq(s) > 0.0
  {
    Square(s);
  }

  lemma PositiveSquares(v: seq<real>, i: nat)
    requires i < |v| && v[i] > Mean(v)
    ensures SumSq(v, Mean(v)) > 0.0
  {
    hide *;
    SumWithout(v, i, Mean(v));
    SumSqNonNegative(v[..i] + v[i + 1..], Mean(v));
    Square(v[i] - Mean(v));
  }

  lemma SignOfProduct(n: real, x: real)
    requires n > 0.0
    ensures x > 0.0 <==> n * x > 0.0
  {
    if x > 0.0 {
      ProductPositive(n, x);
    } else {
      ProductNonNegative(n, -x);
      assert n * -x == -(n * x);
    }
  }

  /** Raising one value that passes the test lets it pass again. */
  lemma RaisedStillExceeds(v: seq<real>, u: seq<real>, i: nat, e: real, stddev: real, later: real, sigma: real)
    requires Raised(v, u, i, e) && i < |v| == |u| && e >= 0.0 && sigma >= 0.0
    requires stddev >= 0.0 && Sq(stddev) == Variance(v)
    requires later >= 0.0 && Sq(later) == Variance(u)
    requires Exceeds(v[i], Mean(v), stddev, sigma)
    ensures Exceeds(u[i], Mean(u), later, sigma)
  {
    hide *;
    var k := (|v| - 1) as real;
    AtLeastTwo(v, v[i], stddev, sigma);
    ExceedsIff(v, i, stddev, sigma);
    ExceedsIff(u, i, later, sigma);
    SpikeBound(v, i, stddev, sigma);
    RaisedValue(v, u, i, e);
    TimesNonNegative(|v| - 1, e);
    RaisedSquares(v, u, i, e);
    GainNonNegative(e, v[i] - Mean(v), k);
    StillAbove(k, |v| as real, Sq(sigma), v[i] - Mean(v), u[i] - Mean(u), SumSq(v, Mean(v)), SumSq(u, Mean(u)),
      Gain(e, v[i] - Mean(v), k));
  }

  /** To any higher value. */
  lemma HigherStillExceeds(v: seq<real>, i: nat, z: real, stddev: real, later: real, sigma: real)
    requires i < |v| && z >= v[i] && sigma >= 0.0
    requires stddev >= 0.0 && Sq(stddev) == Variance(v)
    requires later >= 0.0 && Sq(later) == Variance(v[i := z])
    requires Exceeds(v[i], Mean(v), stddev, sigma)
    ensures Exceeds(z, Mean(v[i := z]), later, sigma)
  {
    var e := RaisedBy(v, i, z);
    hide *;
    RaisedStillExceeds(v, v[i := z], i, e, stddev, later, sigma);
  }

  lemma RaisedBy(v: seq<real>, i: nat, z: real) returns (e: real)
    requires i < |v| && z >= v[i]
    ensures e >= 0.0 && Raised(v, v[i := z], i, e)
  {
    e := (z - v[i]) / (|v| as real);
    QuotientNonNegative(z - v[i], |v| as real);
    Divided(z - v[i], |v| as real);
    TimesIs(|v|, e);
    Commuted(|v| as real, e);
    assert v[i] + Times(|v|, e) == z;
  }

  lemma StillAbove(k: real, n: real, ss: real, x: real, y: real, q: real, q2: real, g: real)
    requires k * Sq(x) > ss * q && n * ss < Sq(k) && g >= 0.0
    requires Proportional(n, k, q, q2, x, y, g)
    ensures k * Sq(y) > ss * q2
  {
    hide Sq;
    StillGreater(n, ss, Sq(k), k * Sq(x), q, g);
  }

  lemma StillGreater(n: real, ss: real, kk: real, a: real, q: real, g: real)
    requires a > ss * q && n * ss < kk && g >= 0.0
    ensures a + kk * g > ss * (q + n * g)
  {
    ProductNonNegative(kk - n * ss, g);
    assert (kk - n * ss) * g == kk * g - (n * ss) * g;
    assert ss * (q + n * g) == ss * q + ss * (n * g);
    assert ss * (n * g) == (n * ss) * g;
  }

  lemma GainNonNegative(e: real, x: real, k: real)
    requires e >= 0.0 && x >= 0.0 && k >= 0.0
    ensures Gain(e, x, k) >= 0.0
  {
    Square(e);
    ProductNonNegative(e, x);
    ProductNonNegative(k, Sq(e));
  }

  lemma {:induction false} TimesNonNegative(n: nat, x: real)
    requires x >= 0.0
    ensures Times(n, x) >= 0.0
  {
    if n > 0 {
      TimesNonNegative(n - 1, x);
    }
  }

  lemma AtLeastTwo(v: seq<real>, value: real, stddev: real, sigma: real)
    requires sigma >= 0.0 && stddev >= 0.0 && Sq(stddev) == Variance(v)
    requires Exceeds(value, Mean(v), stddev, sigma)
    ensures |v| >= 2
  {
    hide Sq, Variance;
    RootSign(stddev);
    PositiveVariance(v);
  }

  /** The statistics do not depend on the order of the values. */
  lemma OrderIrrelevant(a: seq<real>, b: seq<real>)
    requires multiset(a) == multiset(b)
    ensures |a| == |b| && Mean(a) == Mean(b) && Variance(a) == Variance(b)
  {
    assert |multiset(a)| == |multiset(b)|;
    SumsOfPermutation(a, b, Mean(a));
  }

  lemma {:induction false} SumsOfPermutation(a: seq<real>, b: seq<real>, m: real)
    requires multiset(a) == multiset(b)
    ensures |a| == |b| && Sum(a) == Sum(b) && SumSq(a, m) == SumSq(b, m)
    decreases |a|
  {
    assert |multiset(a)| == |multiset(b)|;
    if a == [] {
      assert b == [];
    } else {
      hide *;
      var i, restA := Seqs.TakeOut(a, a[0]);
      var j, restB := Seqs.TakeOut(b, a[0]);
      SumsOfPermutation(restA, restB, m);
      SumWithout(a, i, m);
      SumWithout(b, j, m);
    }
  }

  // Peaks: the values that attain the bound

  /** All values equal but the last, which is d higher. */
  function Peak(n: nat, base: real, d: real): (v: seq<real>)
    requires n >= 1
    ensures |v| == n && v[n - 1] == base + d
    ensures forall i :: 0 <= i < n - 1 ==> v[i] == base
  {
    if n == 1 then [base + d] else [base] + Peak(n - 1, base, d)
  }

  lemma {:induction false} PeakSums(n: nat, base: real, d: real, m: real)
    requires n >= 1
    ensures Sum(Peak(n, base, d)) == (n as real) * base + d
    ensures SumSq(Peak(n, base, d), m) == ((n - 1) as real) * Sq(base - m) + Sq(base + d - m)
  {
    hide Sq;
    if n > 1 {
      PeakSums(n - 1, base, d, m);
      assert Peak(n, base, d)[1..] == Peak(n - 1, base, d);
      StepUp(n as real, base);
      StepUp((n - 1) as real, Sq(base - m));
    }
  }

  /** The mean of a peak lies d / n above its base. */
  lemma PeakMean(n: nat, base: real, d: real, e: real)
    requires n >= 2 && e == d / (n as real)
    ensures Mean(Peak(n, base, d)) == base + e
    ensures base + d - Mean(Peak(n, base, d)) == ((n - 1) as real) * e
  {
    hide *;
    var r, m := n as real, Mean(Peak(n, base, d));
    assert Peak(n, base, d) != [] by {
      assert |Peak(n, base, d)| == n;
    }
    Divided(d, r);
    MeanTimes(Peak(n, base, d));
    PeakSums(n, base, d, m);
    assert r * (m - base - e) == r * m - r * base - e * r;
    ZeroFactor(r, m - base - e);
    StepUp(r, e);
  }

  /** The variance of a peak is n e^2, with e = d / n. */
  lemma PeakVariance(n: nat, base: real, d: real, e: real)
    requires n >= 2 && e == d / (n as real)
    ensures Variance(Peak(n, base, d)) == (n as real) * Sq(e)
  {
    hide *;
    var v, r, k := Peak(n, base, d), n as real, (n - 1) as real;
    assert |v| == n;
    VarianceTimes(v);
    PeakMean(n, base, d, e);
    PeakSums(n, base, d, Mean(v));
    Square(e);
    SameSquare(base - Mean(v), -e);
    SameSquare(base + d - Mean(v), k * e);
    SquareOfProduct(k, e);
    PeakArithmetic(r, k, Sq(e), Sq(k), Variance(v), SumSq(v, Mean(v)), Sq(k * e));
  }

  lemma SameSquare(a: real, b: real)
    requires a == b
    ensures Sq(a) == Sq(b)
  {
  }

  lemma PeakArithmetic(r: real, k: real, y: real, kk: real, w: real, q: real, far: real)
    requires k > 0.0 && r == k + 1.0 && kk == Sq(k)
    requires w * k == q && q == k * y + far && far == kk * y
    ensures w == r * y
  {
    SamePolynomial(k, y);
    CancelEqual(k, w, r * y);
  }

  lemma SamePolynomial(k: real, y: real)
    ensures k * ((k + 1.0) * y) == k * y + Sq(k) * y
  {
    assert (k + 1.0) * y == k * y + y;
    assert k * (k * y + y) == k * (k * y) + k * y;
  }

  lemma CancelEqual(k: real, a: real, b: real)
    requires k > 0.0 && a * k == k * b
    ensures a == b
  {
    CancelFactor(k, a, b);
    CancelFactor(k, b, a);
  }

  /** Every peak attains the bound: it is flagged exactly when n sigma^2 < (n - 1)^2. */
  lemma PeakFlagged(n: nat, base: real, d: real, stddev: real, sigma: real)
    requires n >= 2 && d > 0.0 && sigma >= 0.0
    requires stddev >= 0.0 && Sq(stddev) == Variance(Peak(n, base, d))
    ensures Exceeds(base + d, Mean(Peak(n, base, d)), stddev, sigma)
       <==> (n as real) * Sq(sigma) < Sq((n - 1) as real)
  {
    hide *;
    var r, k := n as real, (n - 1) as real;
    var e := d / r;
    QuotientNonNegative(d, r);
    PeakMean(n, base, d, e);
    PeakVariance(n, base, d, e);
    ProductPositive(k, e);
    Square(e);
    ProductPositive(r, Sq(e));
    Square(stddev);
    SquareOfProduct(k, e);
    SameSquare(base + d - Mean(Peak(n, base, d)), k * e);
    ExceedsSquared(base + d, Mean(Peak(n, base, d)), stddev, sigma);
    PeakCompare(r, Sq(k), Sq(e), Sq(stddev), Sq(sigma), Sq(k * e));
    RootPositive(stddev);
  }

  lemma RootPositive(s: real)
    requires s >= 0.0 && Sq(s) > 0.0
    ensures s > 0.0
  {
    Square(s);
  }

  lemma PeakCompare(r: real, kk: real, y: real, w: real, ss: real, far: real)
    requires y > 0.0 && w == r * y && far == kk * y
    ensures far > ss * w <==> r * ss < kk
  {
    Regroup(ss, r, y);
    ScaleUp(r * ss, kk, y);
  }
}
