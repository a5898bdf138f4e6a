/**
 * Out-of-sample daily returns from per-fold equity curves
 * (forven/baseline_hurdle.py, _daily_compound and _strategy_daily_returns).
 * A series with a deduplicated, sorted index is a map from index to value, read in
 * index order.
 */
module FoldCompounding {
  import opened Basics
  import opened RealMath

  type Series = map<int, real>

  const DAY: int := 86400000000000 // nanoseconds

  function DayOf(t: int): int {
    t / DAY
  }

  ghost predicate IsGreatest(s: set<int>, x: int) {
    x in s && forall y :: y in s ==> y <= x
  }

  lemma {:induction false} HasGreatest(s: set<int>) returns (x: int)
    requires s != {}
    ensures IsGreatest(s, x)
  {
    Inhabited(s);
    x :| x in s;
    var rest := s - {x};
    assert s == rest + {x};
    if rest != {} {
      var z := HasGreatest(rest);
      if x <= z { x := z; }
    }
  }

  function Greatest(s: set<int>): (x: int)
    requires s != {}
    ensures x in s && IsGreatest(s, x)
  {
    assert exists x :: x in s && forall y :: y in s ==> y <= x by {
      var x := HasGreatest(s);
      assert x in s;
    }
    var x :| x in s && forall y :: y in s ==> y <= x;
    x
  }

  function Least(s: set<int>): (x: int)
    requires s != {}
    ensures x in s && forall y :: y in s ==> x <= y
  {
    var negated := set y | y in s :: -y;
    assert negated != {} by {
      Inhabited(s);
      var y :| y in s;
      assert -y in negated;
    }
    var x := -Greatest(negated);
    assert forall y :: y in s ==> -y in negated;
    x
  }

  lemma GreatestOfRest(s: set<int>, k: int)
    requires k in s && k != Greatest(s)
    ensures s - {k} != {} && Greatest(s - {k}) == Greatest(s)
  {
    assert Greatest(s) in s - {k};
  }

  lemma DropOne(m: Series, k: int)
    requires k in m
    ensures |m - {k}| < |m| && (m - {k}).Keys == m.Keys - {k}
  {
    assert (m - {k}).Keys == m.Keys - {k};
  }

  lemma DropTwo(m: Series, k: int, l: int)
    ensures m - {l} - {k} == m - {k} - {l}
  {
  }

  /** The product of `1 + r` over a series, in index order. */
  function Prod(m: Series): real
    decreases |m|
  {
    if m.Keys == {} then 1.0
    else
      var k := Greatest(m.Keys);
      DropOne(m, k);
      Times(Prod(m - {k}), 1.0 + m[k])
  }

  lemma GreatestAfterDrop(m: Series, k: int)
    requires k in m && k != Greatest(m.Keys)
    ensures (m - {k}).Keys != {} && Greatest((m - {k}).Keys) == Greatest(m.Keys)
  {
    DropOne(m, k);
    GreatestOfRest(m.Keys, k);
  }

  lemma ProdDef(m: Series)
    requires m.Keys != {}
    ensures Prod(m) == Times(Prod(m - {Greatest(m.Keys)}), 1.0 + m[Greatest(m.Keys)])
  {
  }

  /** Any entry can be taken out first. */
  lemma {:induction false} ProdWithout(m: Series, k: int)
    requires k in m
    ensures Prod(m) == Times(Prod(m - {k}), 1.0 + m[k])
    decreases |m|
  {
    var last := Greatest(m.Keys);
    ProdDef(m);
    if k != last {
      DropOne(m, last);
      ProdWithout(m - {last}, k);
      GreatestAfterDrop(m, k);
      ProdDef(m - {k});
      DropTwo(m, k, last);
      TimesSwaps(Prod(m - {k} - {last}), 1.0 + m[k], 1.0 + m[last]);
    }
  }

  lemma DropFromUnion(a: Series, b: Series, k: int)
    requires k in b && k !in a
    ensures k in a + b && (a + b)[k] == b[k] && a + b - {k} == a + (b - {k})
  {
  }

  /** The union with an entry of its right half taken out. */
  lemma UnionWithout(a: Series, b: Series, k: int)
    requires k in b && k !in a
    ensures Prod(a + b) == Times(Prod(a + (b - {k})), 1.0 + b[k])
  {
    DropFromUnion(a, b, k);
    ProdTakenApart(a + b, k, a + (b - {k}), b[k]);
  }

  lemma ProdTakenApart(m: Series, k: int, rest: Series, r: real)
    requires k in m && m - {k} == rest && m[k] == r
    ensures Prod(m) == Times(Prod(rest), 1.0 + r)
  {
    ProdWithout(m, k);
  }

  /** The same step on the bare products. */
  lemma ProductStep(a: real, rest: real, f: real, b: real, unionRest: real, union_: real)
    requires unionRest == Times(a, rest) && b == Times(rest, f) && union_ == Times(unionRest, f)
    ensures union_ == Times(a, b)
  {
    TimesAssociates(a, rest, f);
  }

  lemma ProdEmpty(m: Series)
    requires m.Keys == {}
    ensures Prod(m) == 1.0 && forall a: Series :: a + m == a
  {
  }

  lemma {:induction false} ProdUnion(a: Series, b: Series)
    requires a.Keys !! b.Keys
    ensures Prod(a + b) == Times(Prod(a), Prod(b))
    decreases |b|
  {
    if b.Keys == {} {
      ProdEmpty(b);
    } else {
      var k := Greatest(b.Keys);
      DropOne(b, k);
      ProdUnion(a, b - {k});
      UnionWithout(a, b, k);
      ProdWithout(b, k);
      ProductStep(Prod(a), Prod(b - {k}), 1.0 + b[k], Prod(b), Prod(a + (b - {k})), Prod(a + b));
    }
  }

  // ---- daily compounding ----

  function Days(bars: Series): set<int> {
    set t | t in bars :: DayOf(t)
  }

  function OnDay(bars: Series, d: int): Series {
    map t | t in bars && DayOf(t) == d :: bars[t]
  }

  function DailyCompound(bars: Series): Series {
    map d | d in Days(bars) :: Prod(OnDay(bars, d)) - 1.0
  }

  function Within(bars: Series, days: set<int>): Series {
    map t | t in bars && DayOf(t) in days :: bars[t]
  }

  function Daily(bars: Series, days: set<int>): Series {
    map d | d in days :: Prod(OnDay(bars, d)) - 1.0
  }

  lemma SplitDay(bars: Series, days: set<int>, d: int)
    requires d in days
    ensures Daily(bars, days) - {d} == Daily(bars, days - {d})
    ensures Within(bars, days - {d}).Keys !! OnDay(bars, d).Keys
    ensures Within(bars, days) == Within(bars, days - {d}) + OnDay(bars, d)
  {
  }

  lemma {:induction false} DailyKeepsProduct(bars: Series, days: set<int>)
    ensures Prod(Daily(bars, days)) == Prod(Within(bars, days))
    decreases |days|
  {
    if days == {} {
      assert Within(bars, days).Keys == {} && Daily(bars, days).Keys == {};
    } else {
      var d := Greatest(days);
      DailyKeepsProduct(bars, days - {d});
      SplitDay(bars, days, d);
      ProdWithout(Daily(bars, days), d);
      ProdUnion(Within(bars, days - {d}), OnDay(bars, d));
    }
  }

  /** Compounding bars into days loses nothing: the total growth is the same. */
  lemma DailyCompoundConserves(bars: Series)
    ensures Prod(DailyCompound(bars)) == Prod(bars)
  {
    DailyKeepsProduct(bars, Days(bars));
    assert DailyCompound(bars) == Daily(bars, Days(bars));
    assert Within(bars, Days(bars)) == bars;
  }

  // ---- one fold ----

  /** A point of a fold's equity curve; an unparsable timestamp is None. */
  datatype Sample = Sample(stamp: Option<int>, equity: real, initial: Option<real>)

  /** Last reading per timestamp. */
  function Equity(curve: seq<Sample>): Series {
    if curve == [] then map[]
    else
      var last := curve[|curve| - 1];
      var before := Equity(curve[..|curve| - 1]);
      if last.stamp.Some? then before[last.stamp.value := last.equity] else before
  }

  /** `initial_equity` of the first point, or the earliest equity when it is absent or zero. */
  function Start(curve: seq<Sample>): real
    requires curve != [] && Equity(curve).Keys != {}
  {
    var initial := curve[0].initial.GetOr(0.0);
    if initial != 0.0 then initial else Equity(curve)[Least(Equity(curve).Keys)]
  }

  function LastOr(equity: Series, start: real): real {
    if equity.Keys == {} then start else equity[Greatest(equity.Keys)]
  }

  /** Return of one bar; after a wipe-out a bar earns nothing. */
  function Bar(prev: real, now: real): real {
    if prev > 0.0 then now / prev - 1.0 else 0.0
  }

  function BarReturns(equity: Series, start: real): Series
    decreases |equity|
  {
    if equity.Keys == {} then map[]
    else
      var t := Greatest(equity.Keys);
      DropOne(equity, t);
      BarReturns(equity - {t}, start)[t := Bar(LastOr(equity - {t}, start), equity[t])]
  }

  lemma {:induction false} BarKeys(equity: Series, start: real)
    ensures BarReturns(equity, start).Keys == equity.Keys
    decreases |equity|
  {
    if equity.Keys != {} {
      var t := Greatest(equity.Keys);
      DropOne(equity, t);
      BarKeys(equity - {t}, start);
      assert equity.Keys == (equity - {t}).Keys + {t};
    }
  }

  predicate NonNegative(equity: Series) {
    forall t :: t in equity ==> equity[t] >= 0.0
  }

  predicate Positive(equity: Series) {
    forall t :: t in equity ==> equity[t] > 0.0
  }

  lemma Telescope(prev: real, now: real, start: real)
    requires prev > 0.0 && start > 0.0
    ensures Times(prev / start, now / prev) == now / start
  {
    var a, b := prev / start, now / prev;
    Quotient(prev, start);
    Quotient(now, prev);
    assert a * b * start == b * (a * start) == b * prev == now;
    QuotientIs(now, start, a * b);
  }

  lemma BarsWithoutLast(equity: Series, start: real)
    requires equity.Keys != {}
    ensures var t := Greatest(equity.Keys);
            var bars := BarReturns(equity, start);
            && t in bars && bars[t] == Bar(LastOr(equity - {t}, start), equity[t])
            && bars - {t} == BarReturns(equity - {t}, start)
  {
    var t := Greatest(equity.Keys);
    DropOne(equity, t);
    BarKeys(equity - {t}, start);
    var rest := BarReturns(equity - {t}, start);
    assert t !in rest;
    assert rest[t := Bar(LastOr(equity - {t}, start), equity[t])] - {t} == rest;
  }

  /** Growth up to the last bar, given the growth before it. */
  function GrowthOf(equity: Series, start: real): real
    requires start > 0.0
  {
    if Positive(equity) then LastOr(equity, start) / start else 0.0
  }

  lemma GrowthStep(equity: Series, start: real)
    requires start > 0.0 && NonNegative(equity) && equity.Keys != {}
    ensures var t := Greatest(equity.Keys);
            var rest := equity - {t};
            GrowthOf(equity, start) == Times(GrowthOf(rest, start), 1.0 + Bar(LastOr(rest, start), equity[t]))
  {
    var t := Greatest(equity.Keys);
    var rest := equity - {t};
    var prev := LastOr(rest, start);
    if Positive(rest) {
      assert prev > 0.0;
      Telescope(prev, equity[t], start);
      if equity[t] > 0.0 {
        forall u | u in equity ensures equity[u] > 0.0 { assert u == t || u in rest; }
      } else {
        QuotientIs(0.0, start, 0.0);
      }
    } else {
      var u :| u in rest && !(rest[u] > 0.0);
      assert u in equity && equity[u] == rest[u];
    }
  }

  /**
   * Over any non-negative equity curve the bars compound to last over start while
   * equity stays positive, and to zero once it has touched zero, whatever comes after.
   */
  lemma {:induction false} BarsTelescope(equity: Series, start: real)
    requires start > 0.0 && NonNegative(equity)
    ensures Prod(BarReturns(equity, start)) == GrowthOf(equity, start)
    decreases |equity|
  {
    if equity.Keys == {} {
      ProdEmpty(BarReturns(equity, start));
      QuotientIs(start, start, 1.0);
    } else {
      var t := Greatest(equity.Keys);
      DropOne(equity, t);
      BarsTelescope(equity - {t}, start);
      TelescopeStep(equity, start);
    }
  }

  lemma TelescopeStep(equity: Series, start: real)
    requires start > 0.0 && NonNegative(equity) && equity.Keys != {}
    requires var rest := equity - {Greatest(equity.Keys)}; Prod(BarReturns(rest, start)) == GrowthOf(rest, start)
    ensures Prod(BarReturns(equity, start)) == GrowthOf(equity, start)
  {
    BarsWithoutLast(equity, start);
    ProdWithout(BarReturns(equity, start), Greatest(equity.Keys));
    GrowthStep(equity, start);
  }

  /** A curve that contributes: some parsable point and a positive start. */
  predicate Usable(curve: seq<Sample>) {
    curve != [] && Equity(curve).Keys != {} && Start(curve) > 0.0
  }

  function FoldDaily(curve: seq<Sample>): Series
    requires Usable(curve)
  {
    DailyCompound(BarReturns(Equity(curve), Start(curve)))
  }

  /** What a fold's equity says its growth is. */
  function FoldGrowth(curve: seq<Sample>): real
    requires Usable(curve)
  {
    GrowthOf(Equity(curve), Start(curve))
  }

  lemma FoldConserves(curve: seq<Sample>)
    requires Usable(curve) && NonNegative(Equity(curve))
    ensures Prod(FoldDaily(curve)) == FoldGrowth(curve)
  {
    DailyCompoundConserves(BarReturns(Equity(curve), Start(curve)));
    BarsTelescope(Equity(curve), Start(curve));
  }

  // ---- all folds ----

  function Pieces(curves: seq<seq<Sample>>): seq<Series> {
    if curves == [] then []
    else
      var n := |curves| - 1;
      Pieces(curves[..n]) + (if Usable(curves[n]) then [FoldDaily(curves[n])] else [])
  }

  /** Concatenation keeping the first reading of a repeated day. */
  function Concat(pieces: seq<Series>): Series {
    if pieces == [] then map[] else pieces[|pieces| - 1] + Concat(pieces[..|pieces| - 1])
  }

  function StrategyDaily(curves: seq<seq<Sample>>): Series {
    Concat(Pieces(curves))
  }

  method StrategyDailyReturns(curves: seq<seq<Sample>>) returns (daily: Series)
    ensures daily == StrategyDaily(curves)
  {
    var pieces: seq<Series> := [];
    for i := 0 to |curves|
      invariant pieces == Pieces(curves[..i])
    {
      assert curves[..i + 1][..i] == curves[..i];
      var curve := curves[i];
      if curve == [] {
        continue;
      }
      var equity := Equity(curve);
      if equity.Keys == {} {
        continue;
      }
      var start := Start(curve);
      if start <= 0.0 {
        continue;
      }
      pieces := pieces + [DailyCompound(BarReturns(equity, start))];
    }
    assert curves[..|curves|] == curves;
    daily := map[];
    for i := 0 to |pieces|
      invariant daily == Concat(pieces[..i])
    {
      assert pieces[..i + 1][..i] == pieces[..i];
      daily := pieces[i] + daily;
    }
    assert pieces[..|pieces|] == pieces;
  }

  function Growth(curves: seq<seq<Sample>>): real {
    if curves == [] then 1.0
    else
      var n := |curves| - 1;
      if Usable(curves[n]) then Times(FoldGrowth(curves[n]), Growth(curves[..n])) else Growth(curves[..n])
  }

  predicate NoSharedDay(curves: seq<seq<Sample>>) {
    forall i, j :: 0 <= i < j < |curves| && Usable(curves[i]) && Usable(curves[j]) ==>
      FoldDaily(curves[i]).Keys !! FoldDaily(curves[j]).Keys
  }

  predicate AllNonNegative(curves: seq<seq<Sample>>) {
    forall i :: 0 <= i < |curves| ==> NonNegative(Equity(curves[i]))
  }

  lemma StrategyDailyStep(curves: seq<seq<Sample>>)
    requires curves != []
    ensures var n := |curves| - 1;
            StrategyDaily(curves) ==
            if Usable(curves[n]) then FoldDaily(curves[n]) + StrategyDaily(curves[..n]) else StrategyDaily(curves[..n])
  {
    var n := |curves| - 1;
    if Usable(curves[n]) {
      assert Pieces(curves)[..|Pieces(curves)| - 1] == Pieces(curves[..n]);
    } else {
      assert Pieces(curves) == Pieces(curves[..n]);
    }
  }

  lemma {:induction false} StrategyDailyKeys(curves: seq<seq<Sample>>, days: set<int>)
    requires forall i :: 0 <= i < |curves| && Usable(curves[i]) ==> FoldDaily(curves[i]).Keys !! days
    ensures StrategyDaily(curves).Keys !! days
  {
    if curves != [] {
      var n := |curves| - 1;
      StrategyDailyStep(curves);
      StrategyDailyKeys(curves[..n], days);
      assert curves[n] == curves[|curves| - 1];
    }
  }

  /**
   * Conservation over a whole walk-forward: folds that share no day compound, through
   * their daily returns, to the product of what each fold's own equity says.
   */
  lemma {:induction false} WalkForwardConserves(curves: seq<seq<Sample>>)
    requires NoSharedDay(curves) && AllNonNegative(curves)
    ensures Prod(StrategyDaily(curves)) == Growth(curves)
  {
    if curves == [] {
      assert StrategyDaily(curves).Keys == {};
    } else {
      var n := |curves| - 1;
      WalkForwardConserves(curves[..n]);
      StrategyDailyStep(curves);
      if Usable(curves[n]) {
        StrategyDailyKeys(curves[..n], FoldDaily(curves[n]).Keys);
        ProdUnion(FoldDaily(curves[n]), StrategyDaily(curves[..n]));
        FoldConserves(curves[n]);
      }
    }
  }

  // ---- folds that share days ----

  /** Days for which some usable fold has a reading. */
  function DaysOf(curves: seq<seq<Sample>>): set<int> {
    if curves == [] then {}
    else
      var n := |curves| - 1;
      DaysOf(curves[..n]) + (if Usable(curves[n]) then FoldDaily(curves[n]).Keys else {})
  }

  /** The bars of a fold on days no earlier fold has. */
  function FreshBars(curve: seq<Sample>, earlier: set<int>): Series
    requires Usable(curve)
  {
    var bars := BarReturns(Equity(curve), Start(curve));
    Within(bars, Days(bars) - earlier)
  }

  /** Every fold's bars compounded, each day counted for the first fold that has it. */
  function Total(curves: seq<seq<Sample>>): real {
    if curves == [] then 1.0
    else
      var n := |curves| - 1;
      if Usable(curves[n]) then Times(Prod(FreshBars(curves[n], DaysOf(curves[..n]))), Total(curves[..n]))
      else Total(curves[..n])
  }

  lemma {:induction false} DaysAreKeys(curves: seq<seq<Sample>>)
    ensures StrategyDaily(curves).Keys == DaysOf(curves)
  {
    if curves != [] {
      StrategyDailyStep(curves);
      DaysAreKeys(curves[..|curves| - 1]);
    }
  }

  lemma FreshDays(curve: seq<Sample>, earlier: set<int>)
    requires Usable(curve)
    ensures Prod(FoldDaily(curve) - earlier) == Prod(FreshBars(curve, earlier))
  {
    var bars := BarReturns(Equity(curve), Start(curve));
    assert DailyCompound(bars) - earlier == Daily(bars, Days(bars) - earlier);
    DailyKeepsProduct(bars, Days(bars) - earlier);
  }

  lemma RightWins(a: Series, b: Series)
    ensures a + b == (a - b.Keys) + b && (a - b.Keys).Keys !! b.Keys
  {
  }

  /** For every list of folds, overlapping or not, the daily series compounds to that total. */
  lemma {:induction false} WalkForwardTotal(curves: seq<seq<Sample>>)
    ensures Prod(StrategyDaily(curves)) == Total(curves)
  {
    if curves == [] {
      assert StrategyDaily(curves).Keys == {};
    } else {
      var n := |curves| - 1;
      WalkForwardTotal(curves[..n]);
      StrategyDailyStep(curves);
      if Usable(curves[n]) {
        DaysAreKeys(curves[..n]);
        FreshTotal(FoldDaily(curves[n]), StrategyDaily(curves[..n]));
        FreshDays(curves[n], DaysOf(curves[..n]));
      }
    }
  }

  lemma FreshTotal(fold: Series, before: Series)
    ensures Prod(fold + before) == Times(Prod(fold - before.Keys), Prod(before))
  {
    RightWins(fold, before);
    ProdUnion(fold - before.Keys, before);
  }

  lemma {:induction false} ZeroFactor(curves: seq<seq<Sample>>, i: nat)
    requires i < |curves| && Usable(curves[i]) && FoldGrowth(curves[i]) == 0.0
    ensures Growth(curves) == 0.0
  {
    var n := |curves| - 1;
    if i < n { ZeroFactor(curves[..n], i); }
  }

  /** One wiped-out fold takes the whole walk-forward to -100%. */
  lemma WipedFoldWipesAll(curves: seq<seq<Sample>>, i: nat)
    requires NoSharedDay(curves) && AllNonNegative(curves)
    requires i < |curves| && Usable(curves[i]) && !Positive(Equity(curves[i]))
    ensures Prod(StrategyDaily(curves)) == 0.0
  {
    WalkForwardConserves(curves);
    ZeroFactor(curves, i);
  }
}
