/**
 * The hurdle regression (forven/baseline_hurdle.py, _ols): y on an intercept and the
 * columns that vary. `lstsq` is specified by what it promises, a minimiser of the
 * squared error; everything about alpha is derived from that.
 */
module LeastSquares {
  import opened Basics
  import opened RealMath

  type Series = seq<real>

  /** `n` observations of each regressor. */
  predicate Matrix(x: seq<Series>, n: nat) {
    forall j :: 0 <= j < |x| ==> |x[j]| == n
  }

  function SumSq(v: Series): (r: real)
    ensures r >= 0.0
  {
    if v == [] then 0.0
    else
      Square(v[0]);
      Times(v[0], v[0]) + SumSq(v[1..])
  }

  function Sum(v: Series): real {
    if v == [] then 0.0 else v[0] + Sum(v[1..])
  }

  /** `p * v + q * w`, term by term. */
  function Comb(p: real, v: Series, q: real, w: Series): (r: Series)
    requires |v| == |w|
    ensures |r| == |v|
  {
    seq(|v|, i requires 0 <= i < |v| => p * v[i] + q * w[i])
  }

  /** Explained part of observation `i`: the slopes applied to the regressors. */
  function Fit(x: seq<Series>, s: Series, i: nat): real
    requires |s| == |x| && forall j :: 0 <= j < |x| ==> i < |x[j]|
  {
    if x == [] then 0.0 else s[0] * x[0][i] + Fit(x[1..], s[1..], i)
  }

  function Residuals(y: Series, x: seq<Series>, a: real, s: Series): (r: Series)
    requires |s| == |x| && Matrix(x, |y|)
    ensures |r| == |y|
  {
    seq(|y|, i requires 0 <= i < |y| => y[i] - a - Fit(x, s, i))
  }

  /** Population variance; a column is kept when its standard deviation exceeds 1e-12. */
  function Variance(v: Series): real {
    if v == [] then 0.0
    else
      var mean := Sum(v) / |v| as real;
      SumSq(seq(|v|, i requires 0 <= i < |v| => v[i] - mean)) / |v| as real
  }

  const MIN_VARIANCE: real := 0.000000000001 * 0.000000000001

  predicate Varies(v: Series) {
    Variance(v) > MIN_VARIANCE
  }

  /** Slopes that leave dropped columns alone. */
  predicate Admissible(x: seq<Series>, s: Series) {
    |s| == |x| && forall j :: 0 <= j < |x| ==> !Varies(x[j]) ==> s[j] == 0.0
  }

  ghost predicate IsFit(y: Series, x: seq<Series>, a: real, s: Series)
    requires Matrix(x, |y|)
  {
    Admissible(x, s)
    && forall b: real, u: Series :: Admissible(x, u) ==> SumSq(Residuals(y, x, a, s)) <= SumSq(Residuals(y, x, b, u))
  }

  /** The combination `b + u . x` is zero on every observation. */
  predicate Vanishes(x: seq<Series>, n: nat, b: real, u: Series)
    requires Matrix(x, n) && |u| == |x|
  {
    forall i :: 0 <= i < n ==> b + Fit(x, u, i) == 0.0
  }

  /** The kept columns, with the intercept, are linearly independent. */
  ghost predicate Independent(x: seq<Series>, n: nat)
    requires Matrix(x, n)
  {
    forall b: real, u: Series :: Admissible(x, u) && Vanishes(x, n, b, u) ==>
        b == 0.0 && forall j :: 0 <= j < |u| ==> u[j] == 0.0
  }

  /** The intercept is no combination of the kept columns. */
  ghost predicate InterceptIndependent(x: seq<Series>, n: nat)
    requires Matrix(x, n)
  {
    forall b: real, u: Series :: Admissible(x, u) && Vanishes(x, n, b, u) ==> b == 0.0
  }

  // ---- linearity ----

  lemma {:induction false} FitLinear(x: seq<Series>, p: real, s: Series, q: real, u: Series, i: nat)
    requires |s| == |x| && |u| == |x| && forall j :: 0 <= j < |x| ==> i < |x[j]|
    ensures Fit(x, Comb(p, s, q, u), i) == p * Fit(x, s, i) + q * Fit(x, u, i)
  {
    if x != [] {
      var c := Comb(p, s, q, u);
      CombTail(p, s, q, u);
      FitLinear(x[1..], p, s[1..], q, u[1..], i);
      FitHead(p, s[0], q, u[0], x[0][i], Fit(x[1..], s[1..], i), Fit(x[1..], u[1..], i));
    }
  }

  lemma CombTail(p: real, v: Series, q: real, w: Series)
    requires |v| == |w| > 0
    ensures Comb(p, v, q, w)[1..] == Comb(p, v[1..], q, w[1..])
  {
    var a, b := Comb(p, v, q, w)[1..], Comb(p, v[1..], q, w[1..]);
    forall i | 0 <= i < |b| ensures a[i] == b[i] {
      assert a[i] == p * v[i + 1] + q * w[i + 1];
    }
  }

  lemma FitHead(p: real, s: real, q: real, u: real, z: real, f: real, g: real)
    ensures (p * s + q * u) * z + (p * f + q * g) == p * (s * z + f) + q * (u * z + g)
  {
    assert (p * s + q * u) * z == p * (s * z) + q * (u * z);
  }

  lemma AdmissibleComb(x: seq<Series>, p: real, s: Series, q: real, u: Series)
    requires Admissible(x, s) && Admissible(x, u)
    ensures Admissible(x, Comb(p, s, q, u))
  {
  }

  lemma {:induction false} Parallelogram(v: Series, w: Series)
    requires |v| == |w|
    ensures 4.0 * SumSq(Comb(0.5, v, 0.5, w)) == 2.0 * SumSq(v) + 2.0 * SumSq(w) - SumSq(Comb(1.0, v, -1.0, w))
  {
    if v != [] {
      CombTail(0.5, v, 0.5, w);
      CombTail(1.0, v, -1.0, w);
      Parallelogram(v[1..], w[1..]);
      ParallelogramOne(v[0], w[0]);
    }
  }

  lemma ParallelogramOne(a: real, b: real)
    ensures var m, d := 0.5 * a + 0.5 * b, 1.0 * a + -1.0 * b;
            4.0 * Times(m, m) == 2.0 * Times(a, a) + 2.0 * Times(b, b) - Times(d, d)
  {
  }

  lemma {:induction false} ZeroSum(v: Series)
    requires SumSq(v) <= 0.0
    ensures forall i :: 0 <= i < |v| ==> v[i] == 0.0
  {
    if v != [] {
      Square(v[0]);
      ZeroSum(v[1..]);
      assert forall i :: 0 < i < |v| ==> v[i] == v[1..][i - 1];
    }
  }

  // ---- two fits of the same data explain it the same way ----

  lemma FitsDifferByNothing(y: Series, x: seq<Series>, a: real, s: Series, b: real, u: Series)
    requires Matrix(x, |y|) && IsFit(y, x, a, s) && IsFit(y, x, b, u)
    ensures Admissible(x, Comb(1.0, u, -1.0, s)) && Vanishes(x, |y|, b - a, Comb(1.0, u, -1.0, s))
  {
    var v, w := Residuals(y, x, a, s), Residuals(y, x, b, u);
    var mid := Comb(0.5, s, 0.5, u);
    AdmissibleComb(x, 0.5, s, 0.5, u);
    AdmissibleComb(x, 1.0, u, -1.0, s);
    var r := Residuals(y, x, 0.5 * a + 0.5 * b, mid);
    assert r == Comb(0.5, v, 0.5, w) by {
      forall i | 0 <= i < |y| ensures r[i] == 0.5 * v[i] + 0.5 * w[i] { FitLinear(x, 0.5, s, 0.5, u, i); }
    }
    Parallelogram(v, w);
    assert SumSq(v) <= SumSq(r) && SumSq(w) <= SumSq(r);
    var d := Comb(1.0, v, -1.0, w);
    ZeroSum(d);
    forall i | 0 <= i < |y| ensures b - a + Fit(x, Comb(1.0, u, -1.0, s), i) == 0.0 {
      FitLinear(x, 1.0, u, -1.0, s, i);
      assert d[i] == 1.0 * v[i] + -1.0 * w[i];
    }
  }

  /** Alpha is determined by the least-squares promise exactly when the intercept is independent of the kept columns. */
  lemma AlphaIsDeterminedIff(y: Series, x: seq<Series>, a: real, s: Series)
    requires Matrix(x, |y|) && IsFit(y, x, a, s)
    ensures (forall b: real, u: Series :: IsFit(y, x, b, u) ==> b == a) <==> InterceptIndependent(x, |y|)
  {
    if InterceptIndependent(x, |y|) {
      forall b: real, u: Series | IsFit(y, x, b, u) ensures b == a {
        FitsDifferByNothing(y, x, a, s, b, u);
      }
    } else {
      var b: real, u: Series :| Admissible(x, u) && Vanishes(x, |y|, b, u) && b != 0.0;
      VanishingKeepsFit(y, x, a, s, b, u);
      assert IsFit(y, x, a + b, Comb(1.0, s, 1.0, u)) && a + b != a;
    }
  }

  lemma VanishingKeepsFit(y: Series, x: seq<Series>, a: real, s: Series, b: real, u: Series)
    requires Matrix(x, |y|) && IsFit(y, x, a, s) && Admissible(x, u) && Vanishes(x, |y|, b, u)
    ensures IsFit(y, x, a + b, Comb(1.0, s, 1.0, u))
  {
    AdmissibleComb(x, 1.0, s, 1.0, u);
    var r := Residuals(y, x, a + b, Comb(1.0, s, 1.0, u));
    assert r == Residuals(y, x, a, s) by {
      forall i | 0 <= i < |y| ensures r[i] == y[i] - a - Fit(x, s, i) { FitLinear(x, 1.0, s, 1.0, u, i); }
    }
  }

  // ---- what exposure does to a fit ----

  /** `y` plus a constant and a combination of the regressors. */
  function Exposed(y: Series, x: seq<Series>, k: real, c: Series): (r: Series)
    requires Matrix(x, |y|) && |c| == |x|
    ensures |r| == |y|
  {
    seq(|y|, i requires 0 <= i < |y| => y[i] + k + Fit(x, c, i))
  }

  lemma ExposedResiduals(y: Series, x: seq<Series>, k: real, c: Series, a: real, s: Series)
    requires Matrix(x, |y|) && |c| == |x| && |s| == |x|
    ensures Residuals(Exposed(y, x, k, c), x, a, s) == Residuals(y, x, a - k, Comb(1.0, s, -1.0, c))
  {
    forall i | 0 <= i < |y|
      ensures Residuals(Exposed(y, x, k, c), x, a, s)[i] == Residuals(y, x, a - k, Comb(1.0, s, -1.0, c))[i]
    {
      FitLinear(x, 1.0, s, -1.0, c, i);
    }
  }

  lemma BackAndForth(s: Series, c: Series)
    requires |s| == |c|
    ensures Comb(1.0, Comb(1.0, s, 1.0, c), -1.0, c) == s
  {
  }

  lemma ExposedFit(y: Series, x: seq<Series>, k: real, c: Series, a: real, s: Series)
    requires Matrix(x, |y|) && Admissible(x, c) && IsFit(y, x, a, s)
    ensures IsFit(Exposed(y, x, k, c), x, a + k, Comb(1.0, s, 1.0, c))
  {
    var y' := Exposed(y, x, k, c);
    var s' := Comb(1.0, s, 1.0, c);
    AdmissibleComb(x, 1.0, s, 1.0, c);
    ExposedResiduals(y, x, k, c, a + k, s');
    BackAndForth(s, c);
    assert a + k - k == a;
    forall b: real, u: Series | Admissible(x, u)
      ensures SumSq(Residuals(y', x, a + k, s')) <= SumSq(Residuals(y', x, b, u))
    {
      ExposedResiduals(y, x, k, c, b, u);
      AdmissibleComb(x, 1.0, u, -1.0, c);
    }
  }

  /**
   * Adding any combination of the kept regressors leaves alpha where it was and moves
   * the slopes by exactly that combination; a constant daily excess moves alpha by
   * exactly that excess. For every sample length and any number of regressors.
   */
  lemma ExposureIsNotAlpha(y: Series, x: seq<Series>, k: real, c: Series, a: real, s: Series, a': real, s': Series)
    requires Matrix(x, |y|) && Admissible(x, c)
    requires IsFit(y, x, a, s) && IsFit(Exposed(y, x, k, c), x, a', s')
    ensures InterceptIndependent(x, |y|) ==> a' == a + k
    ensures Independent(x, |y|) ==> s' == Comb(1.0, s, 1.0, c)
  {
    ExposedFit(y, x, k, c, a, s);
    var t := Comb(1.0, s, 1.0, c);
    FitsDifferByNothing(Exposed(y, x, k, c), x, a + k, t, a', s');
    var d := Comb(1.0, s', -1.0, t);
    if Independent(x, |y|) {
      forall j | 0 <= j < |s'| ensures s'[j] == t[j] { assert d[j] == 0.0; }
    }
  }

  function Zeros(n: nat): Series {
    seq(n, _ => 0.0)
  }

  lemma {:induction false} ZeroFit(x: seq<Series>, i: nat)
    requires forall j :: 0 <= j < |x| ==> i < |x[j]|
    ensures Fit(x, Zeros(|x|), i) == 0.0
  {
    if x != [] {
      assert Zeros(|x|)[1..] == Zeros(|x[1..]|);
      ZeroFit(x[1..], i);
    }
  }

  lemma {:induction false} SumSqOfZeros(v: Series)
    requires forall i :: 0 <= i < |v| ==> v[i] == 0.0
    ensures SumSq(v) == 0.0
  {
    if v != [] { SumSqOfZeros(v[1..]); }
  }

  /**
   * Pure exposure, such as half the market or a copy of the trend rule, scores alpha 0 with its own weights
   * as slopes.
   */
  lemma PureExposureScoresZero(x: seq<Series>, n: nat, c: Series, a: real, s: Series)
    requires Matrix(x, n) && Admissible(x, c) && IsFit(Exposed(Zeros(n), x, 0.0, c), x, a, s)
    ensures InterceptIndependent(x, n) ==> a == 0.0
    ensures Independent(x, n) ==> s == c
  {
    var y, z := Zeros(n), Zeros(|x|);
    forall i | 0 <= i < n ensures Residuals(y, x, 0.0, z)[i] == 0.0 { ZeroFit(x, i); }
    SumSqOfZeros(Residuals(y, x, 0.0, z));
    assert IsFit(y, x, 0.0, z);
    ExposureIsNotAlpha(y, x, 0.0, c, 0.0, z, a, s);
    assert Comb(1.0, z, 1.0, c) == c;
  }

  // ---- the procedure ----

  function Ones(n: nat): Series {
    seq(n, _ => 1.0)
  }

  function KeptColumns(x: seq<Series>): seq<Series> {
    if x == [] then [] else (if Varies(x[0]) then [x[0]] else []) + KeptColumns(x[1..])
  }

  function Design(x: seq<Series>, n: nat): seq<Series> {
    [Ones(n)] + KeptColumns(x)
  }

  lemma {:induction false} KeptMatrix(x: seq<Series>, n: nat)
    requires Matrix(x, n)
    ensures Matrix(KeptColumns(x), n) && Matrix(Design(x, n), n) && |KeptColumns(x)| <= |x|
  {
    if x != [] { KeptMatrix(x[1..], n); }
  }

  /** What `lstsq` returns: coefficients of a design whose squared error no others beat. */
  ghost predicate Solves(design: seq<Series>, y: Series, coef: Series)
    requires Matrix(design, |y|)
  {
    |coef| == |design|
    && forall other: Series :: |other| == |design| ==>
         SumSq(Residuals(y, design, 0.0, coef)) <= SumSq(Residuals(y, design, 0.0, other))
  }

  /** Kept coefficients put back at their columns, zero elsewhere. */
  function Expand(x: seq<Series>, k: Series): (s: Series)
    requires |k| == |KeptColumns(x)|
    ensures Admissible(x, s)
  {
    if x == [] then []
    else if Varies(x[0]) then [k[0]] + Expand(x[1..], k[1..])
    else [0.0] + Expand(x[1..], k)
  }

  function Compress(x: seq<Series>, s: Series): (k: Series)
    requires |s| == |x|
    ensures |k| == |KeptColumns(x)|
  {
    if x == [] then [] else (if Varies(x[0]) then [s[0]] else []) + Compress(x[1..], s[1..])
  }

  lemma {:induction false} CompressFit(x: seq<Series>, s: Series, i: nat, n: nat)
    requires Matrix(x, n) && i < n && Admissible(x, s)
    ensures Matrix(KeptColumns(x), n)
    ensures Fit(KeptColumns(x), Compress(x, s), i) == Fit(x, s, i)
  {
    KeptMatrix(x, n);
    if x != [] {
      CompressFit(x[1..], s[1..], i, n);
      if Varies(x[0]) {
        assert KeptColumns(x)[1..] == KeptColumns(x[1..]) && Compress(x, s)[1..] == Compress(x[1..], s[1..]);
      } else {
        assert KeptColumns(x) == KeptColumns(x[1..]) && Compress(x, s) == Compress(x[1..], s[1..]);
        assert s[0] == 0.0;
      }
    }
  }

  lemma {:induction false} CompressExpand(x: seq<Series>, k: Series)
    requires |k| == |KeptColumns(x)|
    ensures Compress(x, Expand(x, k)) == k
  {
    if x != [] {
      if Varies(x[0]) {
        assert Expand(x, k)[1..] == Expand(x[1..], k[1..]);
        CompressExpand(x[1..], k[1..]);
      } else {
        assert Expand(x, k)[1..] == Expand(x[1..], k);
        CompressExpand(x[1..], k);
      }
    }
  }

  lemma DesignResiduals(y: Series, x: seq<Series>, a: real, s: Series)
    requires Matrix(x, |y|) && Admissible(x, s)
    ensures Matrix(Design(x, |y|), |y|)
    ensures Residuals(y, Design(x, |y|), 0.0, [a] + Compress(x, s)) == Residuals(y, x, a, s)
  {
    var n := |y|;
    KeptMatrix(x, n);
    var d, c := Design(x, n), [a] + Compress(x, s);
    forall i | 0 <= i < n ensures Residuals(y, d, 0.0, c)[i] == Residuals(y, x, a, s)[i] {
      assert d[1..] == KeptColumns(x) && c[1..] == Compress(x, s);
      CompressFit(x, s, i, n);
      assert Fit(d, c, i) == a * 1.0 + Fit(x, s, i);
    }
  }

  /** A solution on the kept design is a best fit over all admissible slopes. */
  lemma SolutionIsFit(y: Series, x: seq<Series>, coef: Series)
    requires Matrix(x, |y|) && Matrix(Design(x, |y|), |y|) && Solves(Design(x, |y|), y, coef)
    ensures IsFit(y, x, coef[0], Expand(x, coef[1..]))
  {
    var s := Expand(x, coef[1..]);
    CompressExpand(x, coef[1..]);
    assert [coef[0]] + coef[1..] == coef;
    DesignResiduals(y, x, coef[0], s);
    forall b: real, u: Series | Admissible(x, u)
      ensures SumSq(Residuals(y, x, coef[0], s)) <= SumSq(Residuals(y, x, b, u))
    {
      DesignResiduals(y, x, b, u);
    }
  }

  lemma FillStep(x: seq<Series>, j: nat, k: Series, pos: nat, slopes: Series)
    requires j < |x| && pos <= |k| && |k| - pos == |KeptColumns(x[j..])|
    ensures Varies(x[j]) ==>
              && pos < |k| && |k| - (pos + 1) == |KeptColumns(x[j + 1..])|
              && slopes + Expand(x[j..], k[pos..]) == slopes + [k[pos]] + Expand(x[j + 1..], k[pos + 1..])
    ensures !Varies(x[j]) ==>
              && |k| - pos == |KeptColumns(x[j + 1..])|
              && slopes + Expand(x[j..], k[pos..]) == slopes + [0.0] + Expand(x[j + 1..], k[pos..])
  {
    assert x[j..][0] == x[j] && x[j..][1..] == x[j + 1..];
    if Varies(x[j]) {
      assert k[pos..][0] == k[pos] && k[pos..][1..] == k[pos + 1..];
    }
  }

  method FillSlopes(x: seq<Series>, coef: Series) returns (slopes: Series)
    requires |coef| == 1 + |KeptColumns(x)|
    ensures slopes == Expand(x, coef[1..])
  {
    ghost var k := coef[1..];
    slopes := [];
    var pos := 0;
    assert x[0..] == x && k[0..] == k;
    for j := 0 to |x|
      invariant 0 <= pos <= |k| && |k| - pos == |KeptColumns(x[j..])|
      invariant slopes + Expand(x[j..], k[pos..]) == Expand(x, k)
    {
      FillStep(x, j, k, pos, slopes);
      if Varies(x[j]) {
        slopes := slopes + [coef[pos + 1]];
        pos := pos + 1;
      } else {
        slopes := slopes + [0.0];
      }
    }
    assert x[|x|..] == [] && slopes + [] == slopes;
  }
}
