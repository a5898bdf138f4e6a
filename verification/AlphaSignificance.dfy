/**
 * How sure the hurdle regression is of its alpha (forven/baseline_hurdle.py, _ols): the
 * clamped t-statistic. `pinv` enters through one number, the corner of the pseudo-inverse
 * of the normal matrix, which is specified by what determines it.
 */
module AlphaSignificance {
  import opened Basics
  import opened RealMath
  import opened LeastSquares

  // ---- the corner of the pseudo-inverse ----

  function Dot(v: Series, w: Series): real
    requires |v| == |w|
  {
    if v == [] then 0.0 else Times(v[0], w[0]) + Dot(v[1..], w[1..])
  }

  /** The design applied to coefficients. */
  function Image(x: seq<Series>, n: nat, v: Series): (r: Series)
    requires Matrix(x, n) && |v| == |x|
    ensures |r| == n
  {
    seq(n, i requires 0 <= i < n => Fit(x, v, i))
  }

  ghost predicate IsNull(x: seq<Series>, n: nat, z: Series)
    requires Matrix(x, n)
  {
    |z| == |x| && forall i :: 0 <= i < n ==> Image(x, n, z)[i] == 0.0
  }

  /** Orthogonal to everything the design maps to nothing. */
  ghost predicate InRowSpace(x: seq<Series>, n: nat, v: Series)
    requires Matrix(x, n)
  {
    |v| == |x| && forall z: Series :: IsNull(x, n, z) ==> Dot(v, z) == 0.0
  }

  /**
   * The first column of the pseudo-inverse of the normal matrix: within the row space the
   * normal matrix maps it to the first unit vector.
   */
  ghost predicate IsFirstColumn(x: seq<Series>, n: nat, q: Series)
    requires x != [] && Matrix(x, n)
  {
    && InRowSpace(x, n, q)
    && forall v: Series :: InRowSpace(x, n, v) ==> Dot(Image(x, n, q), Image(x, n, v)) == v[0]
  }

  ghost predicate IsCorner(x: seq<Series>, n: nat, p00: real)
    requires x != [] && Matrix(x, n)
  {
    exists q: Series :: IsFirstColumn(x, n, q) && q[0] == p00
  }

  lemma {:induction false} DotSelf(v: Series)
    ensures Dot(v, v) == SumSq(v)
  {
    if v != [] { DotSelf(v[1..]); }
  }

  lemma DotOne(p: real, v: real, q: real, w: real, u: real)
    ensures Times(p * v + q * w, u) == p * Times(v, u) + q * Times(w, u)
  {
  }

  lemma Distribute(p: real, a: real, b: real)
    ensures p * (a + b) == p * a + p * b
  {
  }

  lemma {:induction false} DotLinear(p: real, v: Series, q: real, w: Series, u: Series)
    requires |v| == |w| == |u|
    ensures Dot(Comb(p, v, q, w), u) == p * Dot(v, u) + q * Dot(w, u)
  {
    if v != [] {
      CombTail(p, v, q, w);
      DotLinear(p, v[1..], q, w[1..], u[1..]);
      DotOne(p, v[0], q, w[0], u[0]);
      Distribute(p, Times(v[0], u[0]), Dot(v[1..], u[1..]));
      Distribute(q, Times(w[0], u[0]), Dot(w[1..], u[1..]));
    }
  }

  lemma ImageLinear(x: seq<Series>, n: nat, p: real, v: Series, q: real, w: Series)
    requires Matrix(x, n) && |v| == |w| == |x|
    ensures Image(x, n, Comb(p, v, q, w)) == Comb(p, Image(x, n, v), q, Image(x, n, w))
  {
    forall i | 0 <= i < n ensures Image(x, n, Comb(p, v, q, w))[i] == Comb(p, Image(x, n, v), q, Image(x, n, w))[i] {
      FitLinear(x, p, v, q, w, i);
      CombAt(p, Image(x, n, v), q, Image(x, n, w), i, Fit(x, v, i), Fit(x, w, i));
    }
  }

  lemma CombAt(p: real, v: Series, q: real, w: Series, i: nat, a: real, b: real)
    requires |v| == |w| && i < |v| && v[i] == a && w[i] == b
    ensures Comb(p, v, q, w)[i] == p * a + q * b
  {
  }

  lemma RowSpaceLinear(x: seq<Series>, n: nat, p: real, v: Series, q: real, w: Series)
    requires Matrix(x, n) && InRowSpace(x, n, v) && InRowSpace(x, n, w)
    ensures InRowSpace(x, n, Comb(p, v, q, w))
  {
    forall z: Series | IsNull(x, n, z) ensures Dot(Comb(p, v, q, w), z) == 0.0 { DotLinear(p, v, q, w, z); }
  }

  /** A variance can be built from it: the corner is never negative. */
  lemma CornerIsNonNegative(x: seq<Series>, n: nat, p00: real)
    requires x != [] && Matrix(x, n) && IsCorner(x, n, p00)
    ensures p00 >= 0.0
  {
    var q: Series :| IsFirstColumn(x, n, q) && q[0] == p00;
    DotSelf(Image(x, n, q));
  }

  /** What is both null and in the row space is zero. */
  lemma NullRowIsZero(x: seq<Series>, n: nat, d: Series)
    requires Matrix(x, n) && InRowSpace(x, n, d) && SumSq(Image(x, n, d)) <= 0.0
    ensures forall j :: 0 <= j < |d| ==> d[j] == 0.0
  {
    ZeroSum(Image(x, n, d));
    assert IsNull(x, n, d);
    DotSelf(d);
    ZeroSum(d);
  }

  /** And there is only one. */
  lemma CornerIsUnique(x: seq<Series>, n: nat, p: real, p': real)
    requires x != [] && Matrix(x, n) && IsCorner(x, n, p) && IsCorner(x, n, p')
    ensures p == p'
  {
    var q: Series :| IsFirstColumn(x, n, q) && q[0] == p;
    var q': Series :| IsFirstColumn(x, n, q') && q'[0] == p';
    var d := Comb(1.0, q, -1.0, q');
    RowSpaceLinear(x, n, 1.0, q, -1.0, q');
    ImageLinear(x, n, 1.0, q, -1.0, q');
    DotLinear(1.0, Image(x, n, q), -1.0, Image(x, n, q'), Image(x, n, d));
    DotSelf(Image(x, n, d));
    NullRowIsZero(x, n, d);
    assert d[0] == 0.0;
  }

  // ---- the t-statistic ----

  const T_LIMIT: real := 99.0
  const MIN_VAR: real := 0.000000000000001 * 0.000000000000001

  function Clamp(t: real): real {
    MaxR(MinR(t, T_LIMIT), -T_LIMIT)
  }

  ghost predicate IsRoot(root: real -> real) {
    forall v: real :: v > 0.0 ==> root(v) > 0.0 && Times(root(v), root(v)) == v
  }

  /** Variance of the intercept: residual variance times the corner. */
  function AlphaVariance(error: real, dof: int, p00: real): real
    requires dof > 0
  {
    error / dof as real * p00
  }

  function TStat(alpha: real, error: real, dof: int, p00: real, root: real -> real): (t: real)
    requires IsRoot(root)
    ensures -T_LIMIT <= t <= T_LIMIT
  {
    if dof > 0 && AlphaVariance(error, dof, p00) > MIN_VAR then
      var se := root(AlphaVariance(error, dof, p00));
      assert se > 0.0;
      Clamp(alpha / se)
    else 0.0
  }

  predicate Measurable(error: real, dof: int, p00: real) {
    dof > 0 && AlphaVariance(error, dof, p00) > MIN_VAR
  }

  lemma OrderScales(u: real, v: real, c: real)
    requires c > 0.0
    ensures u < v <==> Times(u, c) < Times(v, c)
    ensures Times(v, c) - Times(u, c) == Times(v - u, c)
  {
    if u < v { PositiveTimes(v - u, c); }
    if v < u { PositiveTimes(u - v, c); }
    assert Times(v, c) - Times(u, c) == Times(v - u, c) == -Times(u - v, c);
  }

  lemma TimesLimit(se: real)
    ensures Times(T_LIMIT, se) == T_LIMIT * se && Times(-T_LIMIT, se) == -T_LIMIT * se && Times(0.0, se) == 0.0
  {
  }

  lemma ClampedLaw(alpha: real, se: real, r: real)
    requires se > 0.0 && Times(r, se) == alpha
    ensures var t := Clamp(r);
            && (-T_LIMIT * se <= alpha <= T_LIMIT * se ==> Times(t, se) == alpha)
            && (alpha > T_LIMIT * se ==> t == T_LIMIT) && (alpha < -T_LIMIT * se ==> t == -T_LIMIT)
            && (t > 0.0 <==> alpha > 0.0) && (t < 0.0 <==> alpha < 0.0)
  {
    TimesLimit(se);
    OrderScales(T_LIMIT, r, se);
    OrderScales(r, -T_LIMIT, se);
    OrderScales(0.0, r, se);
    OrderScales(r, 0.0, se);
  }

  lemma ClampedRatio(alpha: real, se: real)
    requires se > 0.0
    ensures var t := Clamp(alpha / se);
            && (-T_LIMIT * se <= alpha <= T_LIMIT * se ==> Times(t, se) == alpha)
            && (alpha > T_LIMIT * se ==> t == T_LIMIT) && (alpha < -T_LIMIT * se ==> t == -T_LIMIT)
            && (t > 0.0 <==> alpha > 0.0) && (t < 0.0 <==> alpha < 0.0)
  {
    Quotient(alpha, se);
    ClampedLaw(alpha, se, alpha / se);
  }

  /**
   * The statistic times the standard error is alpha as long as it is within the limits,
   * it saturates beyond them, and it has alpha's sign; without a measurable error it is 0.
   */
  lemma TStatLaw(alpha: real, error: real, dof: int, p00: real, root: real -> real)
    requires IsRoot(root)
    ensures var t := TStat(alpha, error, dof, p00, root);
            if Measurable(error, dof, p00) then
              var se := root(AlphaVariance(error, dof, p00));
              && se > 0.0 && Times(se, se) == AlphaVariance(error, dof, p00)
              && (-T_LIMIT * se <= alpha <= T_LIMIT * se ==> Times(t, se) == alpha)
              && (alpha > T_LIMIT * se ==> t == T_LIMIT) && (alpha < -T_LIMIT * se ==> t == -T_LIMIT)
              && (t > 0.0 <==> alpha > 0.0) && (t < 0.0 <==> alpha < 0.0)
            else t == 0.0
  {
    if Measurable(error, dof, p00) { ClampedRatio(alpha, root(AlphaVariance(error, dof, p00))); }
  }

  /** Two best fits of the same data leave the same squared error. */
  lemma FitsErrAlike(y: Series, x: seq<Series>, a: real, s: Series, b: real, u: Series)
    requires Matrix(x, |y|) && IsFit(y, x, a, s) && IsFit(y, x, b, u)
    ensures SumSq(Residuals(y, x, a, s)) == SumSq(Residuals(y, x, b, u))
  {
  }

  /** Adding any combination of the kept regressors leaves the t-statistic where it was. */
  lemma ExposureKeepsTStat(y: Series, x: seq<Series>, c: Series, a: real, s: Series, a': real, s': Series,
                           p00: real, root: real -> real)
    requires Matrix(x, |y|) && Admissible(x, c) && InterceptIndependent(x, |y|) && IsRoot(root)
    requires IsFit(y, x, a, s) && IsFit(Exposed(y, x, 0.0, c), x, a', s')
    ensures var dof := |y| - |Design(x, |y|)|;
            TStat(a', SumSq(Residuals(Exposed(y, x, 0.0, c), x, a', s')), dof, p00, root) ==
            TStat(a, SumSq(Residuals(y, x, a, s)), dof, p00, root)
  {
    var y', t := Exposed(y, x, 0.0, c), Comb(1.0, s, 1.0, c);
    ExposureIsNotAlpha(y, x, 0.0, c, a, s, a', s');
    ExposedFit(y, x, 0.0, c, a, s);
    FitsErrAlike(y', x, a + 0.0, t, a', s');
    ExposedResiduals(y, x, 0.0, c, a + 0.0, t);
    BackAndForth(s, c);
    assert a + 0.0 - 0.0 == a;
  }

  /** Intercept, t-statistic and slopes. `coef` is the solver's answer, `p00` the corner and `root` the square root. */
  method Ols(y: Series, x: seq<Series>, coef: Series, p00: real, root: real -> real)
    returns (alpha: real, t: real, slopes: Series)
    requires Matrix(x, |y|) && Matrix(Design(x, |y|), |y|) && Solves(Design(x, |y|), y, coef)
    requires IsCorner(Design(x, |y|), |y|, p00) && IsRoot(root)
    ensures IsFit(y, x, alpha, slopes)
    ensures t == TStat(alpha, SumSq(Residuals(y, x, alpha, slopes)), |y| - |Design(x, |y|)|, p00, root)
  {
    alpha := coef[0];
    slopes := FillSlopes(x, coef);
    var error := SumSq(Residuals(y, Design(x, |y|), 0.0, coef));
    var dof := |y| - |Design(x, |y|)|;
    t := 0.0;
    if dof > 0 {
      var variance := AlphaVariance(error, dof, p00);
      if variance > MIN_VAR {
        t := Clamp(alpha / root(variance));
      }
    }
    SolutionIsFit(y, x, coef);
    CompressExpand(x, coef[1..]);
    DesignResiduals(y, x, alpha, slopes);
    assert [alpha] + coef[1..] == coef;
  }
}
