/**
 The statistical band of the performance archive: a metric is worse when it crosses the wider of a
 settled relative band and the measured spread of the archived readings (mean plus or minus four
 sample standard deviations). Readings are exact reals.
 */
module Band {
  import opened Options

  const SPREAD_SIGMA: real := 4.0
  const MIN_SPREAD_SAMPLES: nat := 8
  const MINIMUM_DELTA_MS: real := 5.0

  // ---------------------------------------------------------------- statistics

  function Sum(v: seq<real>): real {
    if v == [] then 0.0 else Sum(v[..|v| - 1]) + v[|v| - 1]
  }

  function Sq(x: real): (y: real)
    ensures y >= 0.0
  {
    x * x
  }

  /** The sum of the squared distances from `t`. */
  function Spread2(v: seq<real>, t: real): (r: real)
    ensures r >= 0.0
  {
    if v == [] then 0.0 else Spread2(v[..|v| - 1], t) + Sq(v[|v| - 1] - t)
  }

  function Mean(v: seq<real>): real
    requires v != []
  {
    Sum(v) / |v| as real
  }

  function Variance(v: seq<real>): real
    requires |v| >= 2
  {
    Spread2(v, Mean(v)) / (|v| as real - 1.0)
  }

  /** `sd` is the standard deviation whose square is `variance`. */
  predicate IsRoot(sd: real, variance: real) {
    sd >= 0.0 && Sq(sd) == variance
  }

  /** The squared distances from `t` of `n` readings with sum `s` and sum of squares `a`. */
  function Shifted(n: real, s: real, a: real, t: real): real {
    a - 2.0 * t * s + n * t * t
  }

  lemma ShiftStep(n: real, s: real, a: real, t: real, x: real)
    ensures Shifted(n + 1.0, s + x, a + Sq(x - 0.0), t) == Shifted(n, s, a, t) + Sq(x - t)
  {
    assert Sq(x - t) == x * x - 2.0 * t * x + t * t;
  }

  lemma {:induction false} SpreadShifts(v: seq<real>, t: real)
    ensures Spread2(v, t) == Shifted(|v| as real, Sum(v), Spread2(v, 0.0), t)
  {
    if v != [] {
      hide Shifted, Sq;
      var w := v[..|v| - 1];
      SpreadShifts(w, t);
      ShiftStep(|w| as real, Sum(w), Spread2(w, 0.0), t, v[|v| - 1]);
      assert |w| as real + 1.0 == |v| as real;
    }
  }

  lemma Quotient(s: real, n: real) returns (t: real)
    requires n > 0.0
    ensures t * n == s
  {
    t := s / n;
  }

  /** The square of a sum is at most the count times the sum of squares. */
  lemma CauchySchwarz(v: seq<real>)
    requires v != []
    ensures Sq(Sum(v)) <= |v| as real * Spread2(v, 0.0)
  {
    hide Shifted, Sq, Sum, Spread2;
    var t := Quotient(Sum(v), |v| as real);
    SpreadShifts(v, t);
    Complete(|v| as real, Sum(v), Spread2(v, 0.0), t);
  }

  /** How far the sum `s` of `n` readings is from what it would be if each were `t`. */
  function Offset(s: real, n: real, t: real): real {
    s - n * t
  }

  /** The same about any centre. */
  lemma CenteredBound(v: seq<real>, t: real)
    requires v != []
    ensures Sq(Offset(Sum(v), |v| as real, t)) <= |v| as real * Spread2(v, t)
  {
    hide Shifted, Sq, Sum, Spread2;
    CauchySchwarz(v);
    SpreadShifts(v, t);
    CenterAlgebra(|v| as real, Sum(v), Spread2(v, 0.0), t);
  }

  lemma CenterAlgebra(n: real, s: real, a: real, t: real)
    requires Sq(s) <= n * a
    ensures Sq(Offset(s, n, t)) <= n * Shifted(n, s, a, t)
  {
    assert Sq(Offset(s, n, t)) == s * s - 2.0 * (n * t * s) + n * t * (n * t);
    assert n * Shifted(n, s, a, t) == n * a - 2.0 * (n * t * s) + n * (n * t * t);
    assert n * t * (n * t) == n * (n * t * t);
  }

  lemma Complete(n: real, s: real, a: real, t: real)
    requires n > 0.0 && t * n == s && Shifted(n, s, a, t) >= 0.0
    ensures Sq(s) <= n * a
  {
    assert n * t * t == s * t;
    assert a - t * s >= 0.0;
    assert n * (a - t * s) >= 0.0;
    assert n * (t * s) == s * s;
  }

  /** Taking one reading out. */
  lemma {:induction false} SumWithout(v: seq<real>, i: nat, t: real)
    requires i < |v|
    ensures Sum(v[..i] + v[i + 1..]) == Sum(v) - v[i]
    ensures Spread2(v[..i] + v[i + 1..], t) == Spread2(v, t) - Sq(v[i] - t)
    decreases |v|
  {
    var n := |v| - 1;
    if i == n {
      assert v[..i] + v[i + 1..] == v[..n];
    } else {
      var w := v[..n];
      SumWithout(w, i, t);
      var rest := v[..i] + v[i + 1..];
      assert rest[..|rest| - 1] == w[..i] + w[i + 1..];
      assert rest[|rest| - 1] == v[n];
    }
  }

  lemma SumIsMeans(v: seq<real>)
    requires v != []
    ensures Sum(v) == |v| as real * Mean(v)
  {
    var t := Quotient(Sum(v), |v| as real);
    assert Mean(v) == t;
  }

  /** No reading lies further from the mean than its count allows (Samuelson's inequality). */
  lemma Samuelson(v: seq<real>, i: nat)
    requires i < |v| && |v| >= 2
    ensures |v| as real * Sq(v[i] - Mean(v)) <= (|v| as real - 1.0) * Spread2(v, Mean(v))
  {
    hide Sq, Sum, Spread2, Mean;
    var m := Mean(v);
    var rest := v[..i] + v[i + 1..];
    SumIsMeans(v);
    SumWithout(v, i, m);
    CenteredBound(rest, m);
    assert |rest| as real == |v| as real - 1.0;
    hide Offset;
    SamuelsonAlgebra(|v| as real, |rest| as real, m, v[i], Sum(rest), Spread2(rest, m), Spread2(v, m));
  }

  lemma SamuelsonAlgebra(n: real, k: real, m: real, x: real, s: real, r: real, a: real)
    requires k == n - 1.0 && s == n * m - x && r == a - Sq(x - m) && Sq(Offset(s, k, m)) <= k * r
    ensures n * Sq(x - m) <= k * a
  {
    Regroup(n, k, m, x);
    SqNegates(x - m);
    hide Sq, Offset;
    Distribute(n, k, Sq(x - m), a);
  }

  lemma Regroup(n: real, k: real, m: real, x: real)
    requires k == n - 1.0
    ensures Offset(n * m - x, k, m) == -(x - m)
  {}

  lemma Distribute(n: real, k: real, d2: real, a: real)
    requires k == n - 1.0 && d2 <= k * (a - d2)
    ensures n * d2 <= k * a
  {}

  lemma SqNegates(d: real)
    ensures Sq(-d) == Sq(d)
  {}

  lemma Product(a: real, b: real)
    ensures a > 0.0 && b > 0.0 ==> a * b > 0.0
    ensures a >= 0.0 && b >= 0.0 ==> a * b >= 0.0
    ensures a > 0.0 && a * b <= 0.0 ==> b <= 0.0
  {}

  /** `x` lies above the mean plus four standard deviations, said without the root. */
  predicate Exceeds(x: real, mean: real, variance: real) {
    x > mean && Sq(x - mean) > 16.0 * variance
  }

  lemma ExceedsIsFourSigma(x: real, mean: real, variance: real, sd: real)
    requires IsRoot(sd, variance)
    ensures Exceeds(x, mean, variance) <==> x > mean + SPREAD_SIGMA * sd
  {
    var d := x - mean;
    assert Sq(4.0 * sd) == 16.0 * variance;
    if d > 4.0 * sd {
      SqIncreases(4.0 * sd, d);
    } else if x > mean {
      SqGrows(d, 4.0 * sd);
    }
  }

  /** `x` lies below the mean less four standard deviations. */
  predicate FallsShort(x: real, mean: real, variance: real) {
    x < mean && Sq(mean - x) > 16.0 * variance
  }

  lemma FallsShortIsFourSigma(x: real, mean: real, variance: real, sd: real)
    requires IsRoot(sd, variance)
    ensures FallsShort(x, mean, variance) <==> x < mean - SPREAD_SIGMA * sd
  {
    var y := mean + (mean - x);
    ExceedsIsFourSigma(y, mean, variance, sd);
    assert y - mean == mean - x;
  }

  lemma SqIncreases(a: real, b: real)
    requires 0.0 <= a < b
    ensures Sq(a) < Sq(b)
  {
    Product(b - a, b + a);
    assert (b - a) * (b + a) == Sq(b) - Sq(a);
  }

  lemma SqGrows(a: real, b: real)
    requires 0.0 <= a <= b
    ensures Sq(a) <= Sq(b)
  {
    if a < b { SqIncreases(a, b); }
  }

  /** With at most seventeen readings, every reading lies within four standard deviations of the mean. */
  lemma FewNeverExceed(v: seq<real>, i: nat)
    requires i < |v| && 2 <= |v| <= 17
    ensures !Exceeds(v[i], Mean(v), Variance(v)) && !FallsShort(v[i], Mean(v), Variance(v))
  {
    Samuelson(v, i);
    SqNegates(v[i] - Mean(v));
    assert -(v[i] - Mean(v)) == Mean(v) - v[i];
    var (n, d2, a) := (|v| as real, Sq(v[i] - Mean(v)), Spread2(v, Mean(v)));
    hide Sq, Spread2, Mean;
    var w := Quotient(a, n - 1.0);
    assert Variance(v) == w by { DivisionIs(a, n - 1.0, w); }
    FewAlgebra(|v|, d2, w);
  }

  lemma DivisionIs(a: real, b: real, q: real)
    requires b > 0.0 && q * b == a
    ensures a / b == q
  {}

  lemma FewAlgebra(n: nat, d2: real, w: real)
    requires 2 <= n <= 17 && w >= 0.0
    requires n as real * d2 <= (n as real - 1.0) * (w * (n as real - 1.0))
    ensures d2 <= 16.0 * w
  {
    var x := n as real;
    Product(16.0 - (x - 1.0), x - 1.0);
    var k := (x - 1.0) * (x - 1.0);
    assert k <= 16.0 * x;
    assert (x - 1.0) * (w * (x - 1.0)) == k * w;
    Product(16.0 * x - k, w);
    assert (16.0 * x - k) * w == 16.0 * x * w - k * w;
    assert x * (d2 - 16.0 * w) == x * d2 - 16.0 * x * w;
    Product(x, d2 - 16.0 * w);
  }

  // ---------------------------------------------------------------- eighteen readings

  /** `n - 1` readings of zero and one of `n`. */
  function Outlier(n: nat): seq<real>
    requires n >= 2
  {
    Level(n - 1, 0.0) + [n as real]
  }

  /** `n - 1` readings of `n` and one of zero. */
  function Dip(n: nat): seq<real>
    requires n >= 2
  {
    Level(n - 1, n as real) + [0.0]
  }

  function Level(k: nat, x: real): (r: seq<real>)
    ensures |r| == k
  {
    if k == 0 then [] else Level(k - 1, x) + [x]
  }

  lemma {:induction false} LevelSpread(k: nat, x: real, t: real)
    requires Sq(x - t) == 1.0
    ensures Sum(Level(k, x)) == k as real * x && Spread2(Level(k, x), t) == k as real
  {
    hide Sq;
    if k > 0 {
      LevelSpread(k - 1, x, t);
      assert Level(k, x)[..k - 1] == Level(k - 1, x);
      assert k as real * x == (k - 1) as real * x + x;
    }
  }

  /** One reading `n` apart from the others, which are all one from the mean: the variance is `n`. */
  lemma OddOneOut(n: nat, x: real, odd: real, m: real)
    requires n >= 2 && Sq(x - m) == 1.0 && Sq(odd - m) == Sq(n as real - 1.0)
    requires (n - 1) as real * x + odd == m * n as real
    ensures var v := Level(n - 1, x) + [odd]; Mean(v) == m && Variance(v) == n as real
  {
    var (v, y) := (Level(n - 1, x) + [odd], n as real);
    LevelSpread(n - 1, x, m);
    SquareLess(y);
    assert v[..n - 1] == Level(n - 1, x);
    hide Sq;
    DivisionIs(Sum(v), y, m);
    assert Spread2(v, m) == (y - 1.0) + Sq(y - 1.0);
    DivisionIs(y * (y - 1.0), y - 1.0, y);
  }

  lemma SquareLess(y: real)
    ensures y * (y - 1.0) == (y - 1.0) + Sq(y - 1.0)
  {
    assert Sq(y - 1.0) == (y - 1.0) * (y - 1.0);
  }

  lemma OutlierExceeds(n: nat)
    requires n >= 18
    ensures |Outlier(n)| == n && Exceeds(Outlier(n)[n - 1], Mean(Outlier(n)), Variance(Outlier(n)))
  {
    assert Sq(0.0 - 1.0) == 1.0;
    OddOneOut(n, 0.0, n as real, 1.0);
    LargeAlgebra(n as real);
    hide Mean, Variance;
  }

  lemma DipFallsShort(n: nat)
    requires n >= 18
    ensures |Dip(n)| == n && FallsShort(Dip(n)[n - 1], Mean(Dip(n)), Variance(Dip(n)))
  {
    var x := n as real;
    assert Sq(x - (x - 1.0)) == 1.0;
    SqNegates(x - 1.0);
    assert 0.0 - (x - 1.0) == -(x - 1.0);
    OddOneOut(n, x, 0.0, x - 1.0);
    LargeAlgebra(x);
    hide Mean, Variance;
  }

  lemma LargeAlgebra(x: real)
    requires x >= 18.0
    ensures (x - 1.0) * (x - 1.0) > 16.0 * x
  {
    assert (x - 18.0) * x >= 0.0;
  }

  /**
   Four standard deviations, above the mean or below it, cover every reading of every archive of `n`
   readings exactly up to seventeen.
   */
  lemma CoversExactly(n: nat)
    requires n >= 2
    ensures (forall v: seq<real>, i: nat :: |v| == n && i < n ==> !Exceeds(v[i], Mean(v), Variance(v))) <==> n <= 17
    ensures (forall v: seq<real>, i: nat :: |v| == n && i < n ==> !FallsShort(v[i], Mean(v), Variance(v))) <==> n <= 17
  {
    hide Exceeds, FallsShort, Mean, Variance;
    if n <= 17 {
      forall v: seq<real>, i: nat | |v| == n && i < n
        ensures !Exceeds(v[i], Mean(v), Variance(v)) && !FallsShort(v[i], Mean(v), Variance(v))
      {
        FewNeverExceed(v, i);
      }
    } else {
      OutlierExceeds(n);
      DipFallsShort(n);
    }
  }
}
