/**
 * Equity curves shown by the result viewer (forven/backtest_api.py): the bounded
 * normaliser and the one-pass running-peak drawdown.
 */
module EquityCurve {
  import opened Basics
  import opened RealMath

  // ---- drawdown ----

  ghost predicate NonNegative(curve: seq<real>) {
    forall i :: 0 <= i < |curve| ==> curve[i] >= 0.0
  }

  /** Percentage lost going from equity `high` to equity `low`. */
  function Loss(high: real, low: real): real
    requires high > 0.0
  {
    (high - low) / high * 100.0
  }

  /** Every loss from an earlier (or the same) positive point to a later point is at most `dd`. */
  ghost predicate Bounds(curve: seq<real>, dd: real) {
    forall i, j :: 0 <= i <= j < |curve| && curve[i] > 0.0 ==> Loss(curve[i], curve[j]) <= dd
  }

  ghost predicate Attained(curve: seq<real>, dd: real) {
    exists i, j :: 0 <= i <= j < |curve| && curve[i] > 0.0 && Loss(curve[i], curve[j]) == dd
  }

  /** Measured from a higher point, the loss to the same non-negative low is larger. */
  lemma LossGrowsWithPeak(a: real, b: real, low: real)
    requires 0.0 < a <= b && 0.0 <= low
    ensures Loss(a, low) <= Loss(b, low)
  {
    MulMonotone(a, b, low);
    assert (a - low) * b == a * b - b * low && (b - low) * a == a * b - a * low;
    QuotientsOrdered(a - low, a, b - low, b);
  }

  lemma LossRange(high: real, low: real)
    requires 0.0 < high && 0.0 <= low <= high
    ensures 0.0 <= Loss(high, low) <= 100.0
  {
    QuotientsOrdered(high - low, high, 1.0, 1.0);
    QuotientsOrdered(0.0, 1.0, high - low, high);
  }

  lemma BoundsExtend(curve: seq<real>, n: nat, peak: real, old_: real, dd: real)
    requires n < |curve| && NonNegative(curve) && Bounds(curve[..n], old_) && old_ <= dd
    requires forall i :: 0 <= i <= n ==> curve[i] <= peak
    requires peak > 0.0 ==> Loss(peak, curve[n]) <= dd
    ensures Bounds(curve[..n + 1], dd)
  {
    var c := curve[..n + 1];
    forall i, j | 0 <= i <= j < |c| && c[i] > 0.0 ensures Loss(c[i], c[j]) <= dd {
      if j < n {
        assert Loss(curve[..n][i], curve[..n][j]) <= old_;
      } else {
        LossGrowsWithPeak(c[i], peak, c[j]);
      }
    }
  }

  lemma AttainedExtend(curve: seq<real>, n: nat, dd: real)
    requires n < |curve| && Attained(curve[..n], dd)
    ensures Attained(curve[..n + 1], dd)
  {
    var i, j :| 0 <= i <= j < |curve[..n]| && curve[..n][i] > 0.0 && Loss(curve[..n][i], curve[..n][j]) == dd;
    assert curve[..n + 1][i] == curve[..n][i] && curve[..n + 1][j] == curve[..n][j];
  }

  lemma AttainedHere(curve: seq<real>, n: nat, peak: real)
    requires n < |curve| && peak > 0.0 && peak in curve[..n + 1]
    ensures Attained(curve[..n + 1], Loss(peak, curve[n]))
  {
    var c := curve[..n + 1];
    var i :| 0 <= i < |c| && c[i] == peak;
    assert c[n] == curve[n];
  }

  /** `peak` is the highest of the first `n` points and zero. */
  ghost predicate IsPeak(curve: seq<real>, n: nat, peak: real)
    requires n <= |curve|
  {
    peak >= 0.0 && (forall i :: 0 <= i < n ==> curve[i] <= peak) && (peak > 0.0 ==> peak in curve[..n])
  }

  /** `dd` is the worst loss so far, as far as it can be claimed. */
  ghost predicate IsDrawdown(curve: seq<real>, n: nat, dd: real)
    requires n <= |curve|
  {
    && dd >= 0.0 && (dd == 0.0 || Attained(curve[..n], dd))
    && (NonNegative(curve) ==> Bounds(curve[..n], dd) && dd <= 100.0)
  }

  lemma PeakStep(curve: seq<real>, n: nat, peak: real)
    requires n < |curve| && IsPeak(curve, n, peak)
    ensures IsPeak(curve, n + 1, MaxR(peak, curve[n]))
  {
    assert curve[..n + 1] == curve[..n] + [curve[n]];
  }

  lemma DrawdownStep(curve: seq<real>, n: nat, peak: real, dd: real, dd': real)
    requires n < |curve| && IsPeak(curve, n + 1, peak) && IsDrawdown(curve, n, dd)
    requires dd' == if peak > 0.0 then MaxR(dd, Loss(peak, curve[n])) else dd
    ensures IsDrawdown(curve, n + 1, dd')
  {
    if dd != 0.0 { AttainedExtend(curve, n, dd); }
    if peak > 0.0 { AttainedHere(curve, n, peak); }
    if NonNegative(curve) {
      if peak > 0.0 { LossRange(peak, curve[n]); }
      BoundsExtend(curve, n, peak, dd, dd');
    }
  }

  /**
   * The one-pass loop reports a loss that really occurs between two points; when no
   * equity is negative it is the worst loss over all pairs and at most 100%.
   */
  method MaxDrawdown(curve: seq<real>) returns (dd: real)
    ensures dd >= 0.0 && (dd == 0.0 || Attained(curve, dd))
    ensures NonNegative(curve) ==> Bounds(curve, dd) && dd <= 100.0
  {
    var peak := 0.0;
    dd := 0.0;
    for n := 0 to |curve|
      invariant IsPeak(curve, n, peak) && IsDrawdown(curve, n, dd)
    {
      ghost var before := dd;
      PeakStep(curve, n, peak);
      if curve[n] > peak {
        peak := curve[n];
      }
      if peak > 0.0 {
        var here := (peak - curve[n]) / peak * 100.0;
        if here > dd {
          dd := here;
        }
      }
      DrawdownStep(curve, n, peak, before, dd);
    }
    assert curve[..|curve|] == curve;
  }

  lemma AttainedIsBounded(curve: seq<real>, a: real, b: real)
    requires (a == 0.0 || Attained(curve, a)) && Bounds(curve, b) && b >= 0.0
    ensures a <= b
  {
    if Attained(curve, a) {
      var i, j :| 0 <= i <= j < |curve| && curve[i] > 0.0 && Loss(curve[i], curve[j]) == a;
      assert Loss(curve[i], curve[j]) <= b;
    }
  }

  /** Only one value has these properties, so the method's result is determined. */
  lemma DrawdownIsUnique(curve: seq<real>, a: real, b: real)
    requires a >= 0.0 && Bounds(curve, a) && (a == 0.0 || Attained(curve, a))
    requires b >= 0.0 && Bounds(curve, b) && (b == 0.0 || Attained(curve, b))
    ensures a == b
  {
    AttainedIsBounded(curve, a, b);
    AttainedIsBounded(curve, b, a);
  }

  // ---- the bounded equity curve ----

  datatype RawPoint = RawPoint(timestamp: string, equity: Option<real>) | NotDict

  datatype Point = Point(timestamp: string, equity: real)

  const MAX_POINTS: nat := 5000

  predicate Usable(r: RawPoint) {
    r.RawPoint? && r.timestamp != "" && r.equity.Some?
  }

  function Usables(raw: seq<RawPoint>): seq<Point> {
    if raw == [] then []
    else
      var last := raw[|raw| - 1];
      Usables(raw[..|raw| - 1]) + (if Usable(last) then [Point(last.timestamp, last.equity.value)] else [])
  }

  /** `len(points[::step])`. */
  function Slots(n: nat, step: nat): nat
    requires step > 0
  {
    (n + step - 1) / step
  }

  lemma SlotRange(n: nat, step: nat)
    requires step > 0 && n > 0
    ensures var m := Slots(n, step); m > 0 && (m - 1) * step < n <= m * step
  {
    var m := Slots(n, step);
    assert m * step <= n + step - 1 < m * step + step;
    assert (m - 1) * step == m * step - step;
    assert m * step > 0;
  }

  lemma SlotIndex(n: nat, step: nat, i: nat)
    requires step > 0 && n > 0 && i < Slots(n, step)
    ensures i * step < n
  {
    SlotRange(n, step);
    MulMonotoneInt(i, Slots(n, step) - 1, step);
  }

  /** `points[::step]`. */
  function Every(points: seq<Point>, step: nat): (r: seq<Point>)
    requires step > 0 && points != []
    ensures |r| == Slots(|points|, step) > 0
  {
    SlotRange(|points|, step);
    seq(Slots(|points|, step), i requires 0 <= i < Slots(|points|, step) =>
      SlotIndex(|points|, step, i); points[i * step])
  }

  function Stride(n: nat): (step: nat)
    ensures step > 0
  {
    Max(1, n / MAX_POINTS)
  }

  function Reduce(points: seq<Point>): seq<Point> {
    if |points| <= MAX_POINTS then points
    else
      var kept := Every(points, Stride(|points|));
      if kept[|kept| - 1].timestamp != points[|points| - 1].timestamp then kept + [points[|points| - 1]] else kept
  }

  method NormalizeEquityPoints(raw: seq<RawPoint>) returns (points: seq<Point>)
    ensures points == Reduce(Usables(raw))
  {
    points := [];
    for i := 0 to |raw|
      invariant points == Usables(raw[..i])
    {
      assert raw[..i + 1][..i] == raw[..i];
      if raw[i].RawPoint? && raw[i].timestamp != "" && raw[i].equity.Some? {
        points := points + [Point(raw[i].timestamp, raw[i].equity.value)];
      }
    }
    assert raw[..|raw|] == raw;
    if |points| > MAX_POINTS {
      var reduced := Every(points, Stride(|points|));
      if reduced[|reduced| - 1].timestamp != points[|points| - 1].timestamp {
        reduced := reduced + [points[|points| - 1]];
      }
      points := reduced;
    }
  }

  /** `r` is `points` read at strictly increasing positions. */
  ghost predicate Picks(points: seq<Point>, r: seq<Point>, at: seq<nat>) {
    && |at| == |r|
    && (forall i :: 0 <= i < |at| ==> at[i] < |points| && r[i] == points[at[i]])
    && (forall i :: 0 <= i < |at| - 1 ==> at[i] < at[i + 1])
  }

  function Strided(m: nat, step: nat): (at: seq<nat>)
    ensures |at| == m
  {
    seq(m, i requires 0 <= i < m => i * step)
  }

  lemma StridedRises(m: nat, step: nat, i: nat)
    requires step > 0 && i + 1 < m
    ensures Strided(m, step)[i] < Strided(m, step)[i + 1]
  {
    assert (i + 1) * step == i * step + step;
  }

  lemma EveryPicks(points: seq<Point>, step: nat)
    requires step > 0 && points != []
    ensures var r := Every(points, step); Picks(points, r, Strided(|r|, step)) && Strided(|r|, step)[0] == 0
  {
    var n := |points|;
    var m := Slots(n, step);
    SlotRange(n, step);
    var at := Strided(m, step);
    forall i | 0 <= i < m ensures at[i] < n && Every(points, step)[i] == points[at[i]] { SlotIndex(n, step, i); }
    forall i | 0 <= i < m - 1 ensures at[i] < at[i + 1] { StridedRises(m, step, i); }
    assert 0 * step == 0;
  }

  /** Adding the last point, which the selection does not end on, keeps it a selection. */
  lemma PicksLast(points: seq<Point>, r: seq<Point>, at: seq<nat>)
    requires Picks(points, r, at) && r != [] && points != [] && r[|r| - 1].timestamp != points[|points| - 1].timestamp
    ensures Picks(points, r + [points[|points| - 1]], at + [|points| - 1])
  {
    assert at[|at| - 1] != |points| - 1;
  }

  /** The reduced curve is an in-order selection keeping the first point and the last timestamp. */
  lemma ReduceSelects(points: seq<Point>) returns (at: seq<nat>)
    requires points != []
    ensures var r := Reduce(points);
            && Picks(points, r, at) && |r| > 0 && at[0] == 0
            && r[|r| - 1].timestamp == points[|points| - 1].timestamp
  {
    if |points| <= MAX_POINTS {
      at := seq(|points|, i requires 0 <= i < |points| => i);
    } else {
      var kept := Every(points, Stride(|points|));
      EveryPicks(points, Stride(|points|));
      at := Strided(|kept|, Stride(|points|));
      if kept[|kept| - 1].timestamp != points[|points| - 1].timestamp {
        PicksLast(points, kept, at);
        at := at + [|points| - 1];
      }
    }
  }

  lemma StrideRange(n: nat)
    requires n > MAX_POINTS
    ensures var step := Stride(n); 1 <= step && step * MAX_POINTS <= n < step * MAX_POINTS + MAX_POINTS
  {
  }

  lemma MulLess(a: int, b: int, c: int)
    requires c > 0 && a * c < b * c
    ensures a < b
  {
    assert (b - a) * c > 0;
  }

  lemma SlotsBetween(n: nat, step: nat, lo: nat, hi: nat)
    requires step > 0 && n > 0 && lo * step <= n <= hi * step
    ensures lo <= Slots(n, step) <= hi
  {
    SlotRange(n, step);
    var m := Slots(n, step);
    CancelInt(lo, m, step);
    assert (hi + 1) * step == hi * step + step && (m - 1) * step == m * step - step;
    MulLess(m - 1, hi, step);
  }

  /**
   * A dense curve is reduced to between 5000 and 9999 points, and both bounds are met:
   * the integer stride makes the true cap nearly twice MAX_POINTS.
   */
  lemma ReducedLength(points: seq<Point>)
    requires |points| > MAX_POINTS
    ensures MAX_POINTS <= |Reduce(points)| <= 2 * MAX_POINTS - 1
    ensures |points| == 2 * MAX_POINTS - 1 ==> |Reduce(points)| == 2 * MAX_POINTS - 1
  {
    var n, step := |points|, Stride(|points|);
    StrideRange(n);
    if step == 1 {
      assert Slots(n, 1) == n;
      var kept := Every(points, 1);
      assert (n - 1) * 1 == n - 1;
      assert kept[n - 1] == points[n - 1];
    } else {
      assert 7500 * step == 5000 * step + 2500 * step >= 5000 * step + 5000;
      SlotsBetween(n, step, MAX_POINTS, 7500);
    }
  }

  /** A dense curve fits in MAX_POINTS exactly when its length is a multiple of it and the last slot already ends it. */
  lemma ReducedFitsIff(points: seq<Point>)
    requires |points| > MAX_POINTS
    ensures var n := |points|;
            |Reduce(points)| <= MAX_POINTS <==>
              (n % MAX_POINTS == 0 && points[(MAX_POINTS - 1) * (n / MAX_POINTS)].timestamp == points[n - 1].timestamp)
  {
    var n, step := |points|, Stride(|points|);
    StrideRange(n);
    SlotRange(n, step);
    var m := Slots(n, step);
    if n % MAX_POINTS == 0 {
      assert n == MAX_POINTS * step;
      SlotsBetween(n, step, MAX_POINTS, MAX_POINTS);
      assert Every(points, step)[m - 1] == points[(MAX_POINTS - 1) * step];
    } else {
      assert n > MAX_POINTS * step;
      MulLess(MAX_POINTS, m, step);
    }
  }
}
