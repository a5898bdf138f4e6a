/**
 * The zero-search trend rule the hurdle compares against (forven/baseline_hurdle.py,
 * trend_baseline_positions and trend_baseline_daily_returns). Series are indexed by
 * day; a missing value is None, and so is the result of a division by zero.
 */
module TrendBaseline {
  import opened Basics
  import opened RealMath
  import Text

  type Values = seq<Option<real>>

  // ---- exponentially weighted moments, as running weighted sums ----

  /** Weight kept from one day to the next for a span: 1 - 2 / (span + 1). */
  function Decay(span: nat): (d: real)
    requires span >= 2
    ensures 0.0 < d < 1.0
  {
    assert 2.0 / (span as real + 1.0) < 1.0;
    1.0 - 2.0 / (span as real + 1.0)
  }

  function Count(xs: Values, k: nat): nat
    requires k < |xs|
  {
    (if k == 0 then 0 else Count(xs, k - 1)) + (if xs[k].Some? then 1 else 0)
  }

  /** Sum of the observed values, each decayed by its age. */
  function Weighted(xs: Values, d: real, k: nat): real
    requires k < |xs|
  {
    (if k == 0 then 0.0 else Times(d, Weighted(xs, d, k - 1))) + xs[k].GetOr(0.0)
  }

  /** Sum of the weights themselves. */
  function Weight(xs: Values, d: real, k: nat): (w: real)
    requires k < |xs| && d > 0.0
    ensures w >= 0.0 && (Count(xs, k) > 0 ==> w > 0.0)
  {
    var earlier := if k == 0 then 0.0 else Weight(xs, d, k - 1);
    var kept := if k == 0 then 0.0 else Times(d, earlier);
    assert kept >= 0.0 && (earlier > 0.0 ==> kept > 0.0) by {
      if earlier > 0.0 { PositiveTimes(d, earlier); }
    }
    kept + (if xs[k].Some? then 1.0 else 0.0)
  }

  function Squares(xs: Values): Values {
    seq(|xs|, i requires 0 <= i < |xs| => if xs[i].Some? then Some(Times(xs[i].value, xs[i].value)) else None)
  }

  /** `ewm(span, min_periods).mean()`. */
  function Mean(xs: Values, span: nat, minPeriods: nat, k: nat): Option<real>
    requires k < |xs| && span >= 2 && minPeriods >= 1
  {
    if Count(xs, k) < minPeriods then None
    else Some(Weighted(xs, Decay(span), k) / Weight(xs, Decay(span), k))
  }

  /** Bias-corrected variance from weighted sums: values, squares, weights, squared weights. */
  function Variance(s: real, s2: real, w: real, w2: real): Option<real>
    requires w > 0.0
  {
    var spread := Times(w, w) - w2;
    if spread <= 0.0 then None
    else Some(Times(s2 / w - Times(s / w, s / w), Times(w, w) / spread))
  }

  /** `ewm(span, min_periods).std()`. */
  function Std(root: real -> real, xs: Values, span: nat, minPeriods: nat, k: nat): Option<real>
    requires k < |xs| && span >= 2 && minPeriods >= 1
  {
    if Count(xs, k) < minPeriods then None
    else
      var d := Decay(span);
      PositiveTimes(d, d);
      match Variance(Weighted(xs, d, k), Weighted(Squares(xs), d, k), Weight(xs, d, k), Weight(xs, Times(d, d), k))
      case None => None
      case Some(v) => Some(root(v))
  }

  // ---- the rule ----

  const FORECAST_CAP: real := 20.0
  const TARGET_VOL: real := 0.2
  const MAX_LEVERAGE: real := 2.0
  const VOL_SPAN: nat := 36
  const DAYS_PER_YEAR: real := 365.0

  datatype Mode = LongOnly | ShortOnly | Both

  function ParseMode(text: string): Mode {
    var mode := Text.Lower(Text.Strip(text));
    if mode == "long_only" || mode == "long" then LongOnly
    else if mode == "short_only" || mode == "short" then ShortOnly
    else Both
  }

  function Clip(x: real, lo: real, hi: real): (r: real)
    requires lo <= hi
    ensures lo <= r <= hi
    ensures lo <= x <= hi ==> r == x
    ensures lo <= 0.0 <= hi ==> (x >= 0.0 ==> r >= 0.0) && (x <= 0.0 ==> r <= 0.0)
  {
    MaxR(lo, MinR(x, hi))
  }

  function Diff(close: Values): Values {
    seq(|close|, i requires 0 <= i < |close| =>
      if i == 0 || close[i].None? || close[i - 1].None? then None else Some(close[i].value - close[i - 1].value))
  }

  /** How `pct_change` takes a missing close: the last one seen (pandas 2), or as missing (pandas 3). */
  datatype Fill = Padded | AsIs

  function LastSeen(close: Values, k: nat): Option<real>
    requires k < |close|
  {
    if close[k].Some? || k == 0 then close[k] else LastSeen(close, k - 1)
  }

  function Filled(close: Values, fill: Fill): Values {
    match fill
    case AsIs => close
    case Padded => seq(|close|, i requires 0 <= i < |close| => LastSeen(close, i))
  }

  function Change(before: Option<real>, now: Option<real>): Option<real> {
    if before.None? || now.None? || before.value == 0.0 then None else Some(now.value / before.value - 1.0)
  }

  function PctChange(close: Values, fill: Fill): Values {
    var seen := Filled(close, fill);
    seq(|seen|, i requires 0 <= i < |seen| => if i == 0 then None else Change(seen[i - 1], seen[i]))
  }

  /** One EWMAC speed, scaled and capped; None until both averages and the volatility are warm. */
  function Speed(fast: Option<real>, slow: Option<real>, vol: Option<real>, scalar: real): Option<real> {
    if fast.None? || slow.None? || vol.None? || vol.value == 0.0 then None
    else Some(Clip(Times((fast.value - slow.value) / vol.value, scalar), -FORECAST_CAP, FORECAST_CAP))
  }

  function SpeedAt(root: real -> real, close: Values, fast: nat, scalar: real, k: nat): Option<real>
    requires k < |close| && fast >= 2
  {
    Speed(Mean(close, fast, 4 * fast, k), Mean(close, 4 * fast, 4 * fast, k),
          Std(root, Diff(close), VOL_SPAN, VOL_SPAN, k), scalar)
  }

  /** Average over the speeds that are warm. */
  function Blend(a: Option<real>, b: Option<real>, c: Option<real>, d: Option<real>): Option<real> {
    var n := (if a.Some? then 1.0 else 0.0) + (if b.Some? then 1.0 else 0.0)
           + (if c.Some? then 1.0 else 0.0) + (if d.Some? then 1.0 else 0.0);
    if n == 0.0 then None else Some((a.GetOr(0.0) + b.GetOr(0.0) + c.GetOr(0.0) + d.GetOr(0.0)) / n)
  }

  function Forecast(root: real -> real, close: Values, k: nat): Option<real>
    requires k < |close|
  {
    Blend(SpeedAt(root, close, 8, 5.3, k), SpeedAt(root, close, 16, 3.75, k),
          SpeedAt(root, close, 32, 2.65, k), SpeedAt(root, close, 64, 1.87, k))
  }

  function ForMode(forecast: real, mode: Mode): (r: real)
    ensures mode.LongOnly? ==> r >= 0.0
    ensures mode.ShortOnly? ==> r <= 0.0
  {
    match mode
    case LongOnly => MaxR(0.0, forecast)
    case ShortOnly => MinR(0.0, forecast)
    case Both => forecast
  }

  function Size(forecast: Option<real>, vol: Option<real>, annual: real, mode: Mode): Option<real> {
    if forecast.None? || vol.None? || Times(vol.value, annual) == 0.0 then None
    else
      var position := Times(ForMode(forecast.value, mode) / 10.0, TARGET_VOL / Times(vol.value, annual));
      Some(Clip(position, -MAX_LEVERAGE, MAX_LEVERAGE))
  }

  /** Target position decided at the close of day `k`. */
  function Position(root: real -> real, close: Values, fill: Fill, mode: Mode, k: nat): Option<real>
    requires k < |close|
  {
    Size(Forecast(root, close, k), Std(root, PctChange(close, fill), VOL_SPAN, VOL_SPAN, k), root(DAYS_PER_YEAR), mode)
  }

  // ---- net returns ----

  /** Held fraction, price change and funding rate of every day, and the cost of trading one unit. */
  datatype Book = Book(held: seq<real>, change: seq<real>, funding: seq<real>, costRate: real)

  predicate Aligned(b: Book) {
    |b.held| == |b.change| == |b.funding|
  }

  function HeldBefore(b: Book, k: nat): real
    requires k < |b.held|
  {
    if k == 0 then 0.0 else b.held[k - 1]
  }

  function Gross(b: Book, k: nat): real
    requires Aligned(b) && k < |b.held|
  {
    Times(HeldBefore(b, k), b.change[k])
  }

  /** The first day pays for opening its position; every other day for the change. */
  function Traded(b: Book, k: nat): real
    requires k < |b.held|
  {
    AbsR(b.held[k] - HeldBefore(b, k))
  }

  function FundingPaid(b: Book, k: nat): real
    requires Aligned(b) && k < |b.held|
  {
    Times(HeldBefore(b, k), b.funding[k])
  }

  /** Net return of day `k`: yesterday's position on today's change, less costs and funding. */
  function Net(b: Book, k: nat): real
    requires Aligned(b) && k < |b.held|
  {
    Gross(b, k) - Times(Traded(b, k), b.costRate) - FundingPaid(b, k)
  }

  function Baseline(root: real -> real, close: Values, funding: seq<real>, fill: Fill, mode: Mode,
                    costRate: real): (b: Book)
    requires |funding| == |close|
    ensures Aligned(b) && |b.held| == |close|
  {
    Book(seq(|close|, k requires 0 <= k < |close| => Position(root, close, fill, mode, k).GetOr(0.0)),
         seq(|close|, k requires 0 <= k < |close| => PctChange(close, fill)[k].GetOr(0.0)),
         funding, costRate)
  }

  function Positions(root: real -> real, close: Values, fill: Fill, mode: Mode): (ps: Values)
    ensures |ps| == |close|
  {
    seq(|close|, k requires 0 <= k < |close| => Position(root, close, fill, mode, k))
  }

  /** The day earned a return under a forecast. */
  function LiveAt(positions: Values, k: nat): bool
    requires k < |positions|
  {
    k > 0 && positions[k - 1].Some?
  }

  // ---- no look-ahead ----

  predicate Agree<T(==)>(a: seq<T>, b: seq<T>, k: nat) {
    k < |a| && k < |b| && forall i :: 0 <= i <= k ==> a[i] == b[i]
  }

  lemma {:induction false} SumsAreCausal(xs: Values, ys: Values, d: real, k: nat)
    requires Agree(xs, ys, k) && d > 0.0
    ensures Count(xs, k) == Count(ys, k) && Weighted(xs, d, k) == Weighted(ys, d, k) &&
            Weight(xs, d, k) == Weight(ys, d, k)
  {
    if k > 0 { SumsAreCausal(xs, ys, d, k - 1); }
  }

  lemma MeanIsCausal(xs: Values, ys: Values, span: nat, minPeriods: nat, k: nat)
    requires Agree(xs, ys, k) && span >= 2 && minPeriods >= 1
    ensures Mean(xs, span, minPeriods, k) == Mean(ys, span, minPeriods, k)
  {
    SumsAreCausal(xs, ys, Decay(span), k);
  }

  lemma StdIsCausal(root: real -> real, xs: Values, ys: Values, span: nat, minPeriods: nat, k: nat)
    requires Agree(xs, ys, k) && span >= 2 && minPeriods >= 1
    ensures Std(root, xs, span, minPeriods, k) == Std(root, ys, span, minPeriods, k)
  {
    var d := Decay(span);
    PositiveTimes(d, d);
    SumsAreCausal(xs, ys, d, k);
    SumsAreCausal(xs, ys, Times(d, d), k);
    assert Agree(Squares(xs), Squares(ys), k);
    SumsAreCausal(Squares(xs), Squares(ys), d, k);
  }

  lemma SpeedIsCausal(root: real -> real, a: Values, b: Values, fast: nat, scalar: real, k: nat)
    requires Agree(a, b, k) && fast >= 2
    ensures SpeedAt(root, a, fast, scalar, k) == SpeedAt(root, b, fast, scalar, k)
  {
    assert Agree(Diff(a), Diff(b), k);
    MeanIsCausal(a, b, fast, 4 * fast, k);
    MeanIsCausal(a, b, 4 * fast, 4 * fast, k);
    StdIsCausal(root, Diff(a), Diff(b), VOL_SPAN, VOL_SPAN, k);
  }

  lemma {:induction false} LastSeenIsCausal(a: Values, b: Values, k: nat)
    requires Agree(a, b, k)
    ensures LastSeen(a, k) == LastSeen(b, k)
  {
    if k > 0 { LastSeenIsCausal(a, b, k - 1); }
  }

  lemma PctChangeIsCausal(a: Values, b: Values, fill: Fill, k: nat)
    requires Agree(a, b, k)
    ensures Agree(PctChange(a, fill), PctChange(b, fill), k)
  {
    forall i | 0 <= i <= k ensures Filled(a, fill)[i] == Filled(b, fill)[i] { LastSeenIsCausal(a, b, i); }
  }

  lemma PositionIsCausal(root: real -> real, a: Values, b: Values, fill: Fill, mode: Mode, k: nat)
    requires Agree(a, b, k)
    ensures Position(root, a, fill, mode, k) == Position(root, b, fill, mode, k)
  {
    SpeedIsCausal(root, a, b, 8, 5.3, k);
    SpeedIsCausal(root, a, b, 16, 3.75, k);
    SpeedIsCausal(root, a, b, 32, 2.65, k);
    SpeedIsCausal(root, a, b, 64, 1.87, k);
    PctChangeIsCausal(a, b, fill, k);
    StdIsCausal(root, PctChange(a, fill), PctChange(b, fill), VOL_SPAN, VOL_SPAN, k);
  }

  lemma BaselineIsCausal(root: real -> real, a: Values, b: Values, fa: seq<real>, fb: seq<real>, fill: Fill,
                         mode: Mode, rate: real, k: nat)
    requires |fa| == |a| && |fb| == |b| && Agree(a, b, k) && Agree(fa, fb, k)
    ensures var x, y := Baseline(root, a, fa, fill, mode, rate), Baseline(root, b, fb, fill, mode, rate);
            Agree(x.held, y.held, k) && Agree(x.change, y.change, k) && Agree(x.funding, y.funding, k)
  {
    var x, y := Baseline(root, a, fa, fill, mode, rate), Baseline(root, b, fb, fill, mode, rate);
    forall i | 0 <= i <= k ensures x.held[i] == y.held[i] { PositionIsCausal(root, a, b, fill, mode, i); }
    PctChangeIsCausal(a, b, fill, k);
  }

  lemma NetIsCausal(x: Book, y: Book, k: nat, i: nat)
    requires Aligned(x) && Aligned(y) && x.costRate == y.costRate && i <= k
    requires Agree(x.held, y.held, k) && Agree(x.change, y.change, k) && Agree(x.funding, y.funding, k)
    ensures Net(x, i) == Net(y, i)
  {
    assert x.held[i] == y.held[i] && x.change[i] == y.change[i] && x.funding[i] == y.funding[i];
    if i > 0 { assert x.held[i - 1] == y.held[i - 1]; }
  }

  lemma PositionsAreCausal(root: real -> real, a: Values, b: Values, fill: Fill, mode: Mode, k: nat)
    requires Agree(a, b, k)
    ensures Agree(Positions(root, a, fill, mode), Positions(root, b, fill, mode), k)
  {
    forall i | 0 <= i <= k ensures Position(root, a, fill, mode, i) == Position(root, b, fill, mode, i) {
      PositionIsCausal(root, a, b, fill, mode, i);
    }
  }

  /** Everything the baseline reports for day `i`: position, live mask and net return. */
  function DayOf(root: real -> real, close: Values, funding: seq<real>, fill: Fill, mode: Mode, rate: real,
                 i: nat): (Option<real>, bool, real)
    requires |funding| == |close| && i < |close|
  {
    (Position(root, close, fill, mode, i), LiveAt(Positions(root, close, fill, mode), i),
     Net(Baseline(root, close, funding, fill, mode, rate), i))
  }

  lemma NetNoLookAhead(root: real -> real, a: Values, b: Values, fa: seq<real>, fb: seq<real>, fill: Fill, mode: Mode,
                       rate: real, k: nat, i: nat)
    requires |fa| == |a| && |fb| == |b| && Agree(a, b, k) && Agree(fa, fb, k) && i <= k
    ensures Net(Baseline(root, a, fa, fill, mode, rate), i) == Net(Baseline(root, b, fb, fill, mode, rate), i)
  {
    var x, y := Baseline(root, a, fa, fill, mode, rate), Baseline(root, b, fb, fill, mode, rate);
    BaselineIsCausal(root, a, b, fa, fb, fill, mode, rate, k);
    NetIsCausal(x, y, k, i);
  }

  /** Two histories that agree up to day `k` give the same position, live mask and net return on every day up to `k`. */
  lemma NoLookAhead(root: real -> real, a: Values, b: Values, fa: seq<real>, fb: seq<real>, fill: Fill, mode: Mode,
                    rate: real, k: nat, i: nat)
    requires |fa| == |a| && |fb| == |b| && Agree(a, b, k) && Agree(fa, fb, k) && i <= k
    ensures DayOf(root, a, fa, fill, mode, rate, i) == DayOf(root, b, fb, fill, mode, rate, i)
  {
    assert Position(root, a, fill, mode, i) == Position(root, b, fill, mode, i) by {
      PositionIsCausal(root, a, b, fill, mode, i);
    }
    PositionsAreCausal(root, a, b, fill, mode, k);
    NetNoLookAhead(root, a, b, fa, fb, fill, mode, rate, k, i);
  }

  // ---- limits ----

  lemma TimesSign(a: real, b: real)
    requires b > 0.0
    ensures (a >= 0.0 ==> Times(a, b) >= 0.0) && (a <= 0.0 ==> Times(a, b) <= 0.0)
  {
  }

  lemma QuotientPositive(a: real, b: real)
    requires a > 0.0 && b > 0.0
    ensures a / b > 0.0
  {
  }

  /** Never more than twice the equity, and only on the side the trade mode allows. */
  lemma PositionWithinLimits(root: real -> real, close: Values, fill: Fill, mode: Mode, k: nat)
    requires k < |close| && forall v: real :: root(v) >= 0.0
    ensures var p := Position(root, close, fill, mode, k);
            p.Some? ==>
              && -MAX_LEVERAGE <= p.value <= MAX_LEVERAGE
              && (mode.LongOnly? ==> p.value >= 0.0) && (mode.ShortOnly? ==> p.value <= 0.0)
  {
    var forecast := Forecast(root, close, k);
    var vol := Std(root, PctChange(close, fill), VOL_SPAN, VOL_SPAN, k);
    SizeWithinLimits(forecast, vol, root(DAYS_PER_YEAR), mode);
  }

  /** The text of the trade mode decides the side: long-only never goes short, short-only never long. */
  lemma TradeModeIsRespected(root: real -> real, close: Values, fill: Fill, text: string, k: nat)
    requires k < |close| && forall v: real :: root(v) >= 0.0
    ensures var p, mode := Position(root, close, fill, ParseMode(text), k), Text.Lower(Text.Strip(text));
            p.Some? ==>
              && (mode in {"long_only", "long"} ==> p.value >= 0.0)
              && (mode in {"short_only", "short"} ==> p.value <= 0.0)
  {
    PositionWithinLimits(root, close, fill, ParseMode(text), k);
  }

  lemma SizeWithinLimits(forecast: Option<real>, vol: Option<real>, annual: real, mode: Mode)
    requires vol.Some? ==> vol.value >= 0.0
    requires annual >= 0.0
    ensures var p := Size(forecast, vol, annual, mode);
            p.Some? ==>
              && -MAX_LEVERAGE <= p.value <= MAX_LEVERAGE
              && (mode.LongOnly? ==> p.value >= 0.0) && (mode.ShortOnly? ==> p.value <= 0.0)
  {
    if Size(forecast, vol, annual, mode).Some? {
      var scale := Times(vol.value, annual);
      assert scale > 0.0 by {
        if vol.value > 0.0 && annual > 0.0 { PositiveTimes(vol.value, annual); }
      }
      QuotientPositive(TARGET_VOL, scale);
      TimesSign(ForMode(forecast.value, mode) / 10.0, TARGET_VOL / scale);
    }
  }

  // ---- cost accounting ----

  function TotalNet(b: Book, n: nat): real
    requires Aligned(b) && n <= |b.held|
  {
    if n == 0 then 0.0 else TotalNet(b, n - 1) + Net(b, n - 1)
  }

  /** Before costs: price gains less funding. */
  function TotalEarned(b: Book, n: nat): real
    requires Aligned(b) && n <= |b.held|
  {
    if n == 0 then 0.0 else TotalEarned(b, n - 1) + Gross(b, n - 1) - FundingPaid(b, n - 1)
  }

  function Turnover(b: Book, n: nat): (r: real)
    requires n <= |b.held|
    ensures r >= 0.0
  {
    if n == 0 then 0.0 else Turnover(b, n - 1) + Traded(b, n - 1)
  }

  lemma TimesDistributes(a: real, b: real, c: real)
    ensures Times(a + b, c) == Times(a, c) + Times(b, c)
  {
  }

  /** Over any number of days costs take exactly the cost rate times the turnover. */
  lemma {:induction false} CostsAreRateTimesTurnover(b: Book, n: nat)
    requires Aligned(b) && n <= |b.held|
    ensures TotalNet(b, n) == TotalEarned(b, n) - Times(Turnover(b, n), b.costRate)
  {
    if n > 0 {
      CostsAreRateTimesTurnover(b, n - 1);
      TimesDistributes(Turnover(b, n - 1), Traded(b, n - 1), b.costRate);
    }
  }

  lemma {:induction false} EarnedIgnoresCost(b: Book, rate: real, n: nat)
    requires Aligned(b) && n <= |b.held|
    ensures var c := b.(costRate := rate); TotalEarned(c, n) == TotalEarned(b, n) && Turnover(c, n) == Turnover(b, n)
  {
    if n > 0 { EarnedIgnoresCost(b, rate, n - 1); }
  }

  /** Dearer trading never helps the baseline, over any horizon. */
  lemma DearerNeverHelps(b: Book, dearer: real, n: nat)
    requires Aligned(b) && n <= |b.held| && b.costRate <= dearer
    ensures TotalNet(b.(costRate := dearer), n) <= TotalNet(b, n)
  {
    EarnedIgnoresCost(b, dearer, n);
    CostsAreRateTimesTurnover(b, n);
    CostsAreRateTimesTurnover(b.(costRate := dearer), n);
    CostOrder(TotalEarned(b, n), Turnover(b, n), b.costRate, dearer);
  }

  lemma CostOrder(earned: real, turnover: real, rate: real, dearer: real)
    requires turnover >= 0.0 && rate <= dearer
    ensures earned - Times(turnover, dearer) <= earned - Times(turnover, rate)
  {
    MulMonotone(rate, dearer, turnover);
  }

  // ---- the rule has no unit ----

  /** `ys` is `xs` quoted in another unit. */
  predicate Scaled(xs: Values, ys: Values, c: real) {
    |xs| == |ys| && forall i :: 0 <= i < |xs| ==> ScaledOne(xs[i], ys[i], c)
  }

  predicate ScaledOne(x: Option<real>, y: Option<real>, c: real) {
    (x.None? <==> y.None?) && (x.Some? ==> y.value == Times(c, x.value))
  }

  lemma ScaleStep(c: real, d: real, w: real, x: real)
    ensures Times(d, Times(c, w)) + Times(c, x) == Times(c, Times(d, w) + x)
  {
  }

  lemma {:induction false} SumsScale(xs: Values, ys: Values, c: real, d: real, k: nat)
    requires Scaled(xs, ys, c) && k < |xs| && d > 0.0
    ensures Count(ys, k) == Count(xs, k) && Weight(ys, d, k) == Weight(xs, d, k)
    ensures Weighted(ys, d, k) == Times(c, Weighted(xs, d, k))
  {
    var x := xs[k].GetOr(0.0);
    assert ScaledOne(xs[k], ys[k], c);
    assert ys[k].GetOr(0.0) == Times(c, x);
    if k > 0 {
      SumsScale(xs, ys, c, d, k - 1);
      ScaleStep(c, d, Weighted(xs, d, k - 1), x);
    }
  }

  lemma QuotientScales(c: real, s: real, w: real)
    requires w != 0.0
    ensures Times(c, s) / w == Times(c, s / w)
  {
    Quotient(s, w);
    assert Times(c, s / w) * w == c * (s / w * w);
    QuotientIs(Times(c, s), w, Times(c, s / w));
  }

  lemma MeanScales(xs: Values, ys: Values, c: real, span: nat, minPeriods: nat, k: nat)
    requires Scaled(xs, ys, c) && k < |xs| && span >= 2 && minPeriods >= 1
    ensures ScaledOne(Mean(xs, span, minPeriods, k), Mean(ys, span, minPeriods, k), c)
  {
    SumsScale(xs, ys, c, Decay(span), k);
    if Count(xs, k) >= minPeriods {
      QuotientScales(c, Weighted(xs, Decay(span), k), Weight(xs, Decay(span), k));
    }
  }

  lemma SquaresScale(xs: Values, ys: Values, c: real)
    requires Scaled(xs, ys, c)
    ensures Scaled(Squares(xs), Squares(ys), Times(c, c))
  {
    forall i | 0 <= i < |xs| ensures ScaledOne(Squares(xs)[i], Squares(ys)[i], Times(c, c)) {
      assert ScaledOne(xs[i], ys[i], c);
      if xs[i].Some? { SquareScales(c, xs[i].value); }
    }
  }

  lemma SquareScales(c: real, x: real)
    ensures Times(Times(c, x), Times(c, x)) == Times(Times(c, c), Times(x, x))
  {
  }

  lemma VarianceScales(c: real, s: real, s2: real, w: real, w2: real)
    requires w > 0.0
    ensures ScaledOne(Variance(s, s2, w, w2), Variance(Times(c, s), Times(Times(c, c), s2), w, w2), Times(c, c))
  {
    QuotientScales(c, s, w);
    QuotientScales(Times(c, c), s2, w);
    SquareScales(c, s / w);
    var spread := Times(w, w) - w2;
    if spread > 0.0 {
      var cc, a, b, f := Times(c, c), s2 / w, Times(s / w, s / w), Times(w, w) / spread;
      FactorOut(cc, a, b, f);
    }
  }

  lemma FactorOut(cc: real, a: real, b: real, f: real)
    ensures Times(Times(cc, a) - Times(cc, b), f) == Times(cc, Times(a - b, f))
  {
  }

  /** What is asked of the square root: it takes a squared factor out. */
  ghost predicate Homogeneous(root: real -> real) {
    forall c: real, v: real :: c > 0.0 ==> root(Times(Times(c, c), v)) == Times(c, root(v))
  }

  lemma StdScales(root: real -> real, xs: Values, ys: Values, c: real, span: nat, minPeriods: nat, k: nat)
    requires Scaled(xs, ys, c) && k < |xs| && span >= 2 && minPeriods >= 1 && c > 0.0 && Homogeneous(root)
    ensures ScaledOne(Std(root, xs, span, minPeriods, k), Std(root, ys, span, minPeriods, k), c)
  {
    var d := Decay(span);
    PositiveTimes(d, d);
    SumsScale(xs, ys, c, d, k);
    SumsScale(xs, ys, c, Times(d, d), k);
    SquaresScale(xs, ys, c);
    SumsScale(Squares(xs), Squares(ys), Times(c, c), d, k);
    if Count(xs, k) >= minPeriods {
      var w, w2 := Weight(xs, d, k), Weight(xs, Times(d, d), k);
      VarianceScales(c, Weighted(xs, d, k), Weighted(Squares(xs), d, k), w, w2);
      var v := Variance(Weighted(xs, d, k), Weighted(Squares(xs), d, k), w, w2);
      if v.Some? {
        assert root(Times(Times(c, c), v.value)) == Times(c, root(v.value));
      }
    }
  }

  lemma RatioScales(c: real, a: real, b: real)
    requires c > 0.0 && b != 0.0
    ensures Times(c, b) != 0.0 && Times(c, a) / Times(c, b) == a / b
  {
    Quotient(a, b);
    NonZeroTimes(c, b);
    assert a / b * Times(c, b) == c * (a / b * b);
    QuotientIs(Times(c, a), Times(c, b), a / b);
  }

  lemma NonZeroTimes(c: real, b: real)
    requires c > 0.0 && b != 0.0
    ensures Times(c, b) != 0.0
  {
    if b > 0.0 { PositiveTimes(c, b); } else { PositiveTimes(c, -b); }
  }

  lemma SpeedScales(f: Option<real>, s: Option<real>, v: Option<real>, f': Option<real>, s': Option<real>,
                    v': Option<real>, scalar: real, c: real)
    requires c > 0.0 && ScaledOne(f, f', c) && ScaledOne(s, s', c) && ScaledOne(v, v', c)
    ensures Speed(f', s', v', scalar) == Speed(f, s, v, scalar)
  {
    if f.Some? && s.Some? && v.Some? {
      if v.value != 0.0 {
        RatioScales(c, f.value - s.value, v.value);
        assert f'.value - s'.value == Times(c, f.value - s.value);
      } else {
        assert Times(c, 0.0) == 0.0;
      }
    }
  }

  lemma {:induction false} LastSeenScales(a: Values, b: Values, c: real, k: nat)
    requires Scaled(a, b, c) && k < |a|
    ensures ScaledOne(LastSeen(a, k), LastSeen(b, k), c)
  {
    assert ScaledOne(a[k], b[k], c);
    if a[k].None? && k > 0 { LastSeenScales(a, b, c, k - 1); }
  }

  lemma FilledScales(a: Values, b: Values, c: real, fill: Fill)
    requires Scaled(a, b, c)
    ensures Scaled(Filled(a, fill), Filled(b, fill), c)
  {
    forall i | 0 <= i < |a| ensures ScaledOne(Filled(a, fill)[i], Filled(b, fill)[i], c) {
      assert ScaledOne(a[i], b[i], c);
      LastSeenScales(a, b, c, i);
    }
  }

  lemma ChangeHasNoUnit(before: Option<real>, now: Option<real>, before': Option<real>, now': Option<real>, c: real)
    requires c > 0.0 && ScaledOne(before, before', c) && ScaledOne(now, now', c)
    ensures Change(before', now') == Change(before, now)
  {
    if before.Some? && now.Some? {
      if before.value != 0.0 {
        RatioScales(c, now.value, before.value);
      } else {
        assert Times(c, 0.0) == 0.0;
      }
    }
  }

  lemma PctChangeHasNoUnit(a: Values, b: Values, c: real, fill: Fill)
    requires Scaled(a, b, c) && c > 0.0
    ensures PctChange(b, fill) == PctChange(a, fill)
  {
    FilledScales(a, b, c, fill);
    var x, y := Filled(a, fill), Filled(b, fill);
    forall i | 0 < i < |a| ensures PctChange(b, fill)[i] == PctChange(a, fill)[i] {
      assert ScaledOne(x[i - 1], y[i - 1], c) && ScaledOne(x[i], y[i], c);
      ChangeHasNoUnit(x[i - 1], x[i], y[i - 1], y[i], c);
    }
  }

  lemma DiffScales(a: Values, b: Values, c: real)
    requires Scaled(a, b, c)
    ensures Scaled(Diff(a), Diff(b), c)
  {
    forall i | 0 < i < |a| ensures ScaledOne(Diff(a)[i], Diff(b)[i], c) {
      assert ScaledOne(a[i - 1], b[i - 1], c) && ScaledOne(a[i], b[i], c);
      if a[i - 1].Some? && a[i].Some? {
        assert Times(c, a[i].value) - Times(c, a[i - 1].value) == Times(c, a[i].value - a[i - 1].value);
      }
    }
  }

  lemma SpeedHasNoUnit(root: real -> real, a: Values, b: Values, c: real, fast: nat, scalar: real, k: nat)
    requires Scaled(a, b, c) && c > 0.0 && Homogeneous(root) && k < |a| && fast >= 2
    ensures SpeedAt(root, b, fast, scalar, k) == SpeedAt(root, a, fast, scalar, k)
  {
    DiffScales(a, b, c);
    MeanScales(a, b, c, fast, 4 * fast, k);
    MeanScales(a, b, c, 4 * fast, 4 * fast, k);
    StdScales(root, Diff(a), Diff(b), c, VOL_SPAN, VOL_SPAN, k);
    SpeedScales(Mean(a, fast, 4 * fast, k), Mean(a, 4 * fast, 4 * fast, k), Std(root, Diff(a), VOL_SPAN, VOL_SPAN, k),
                Mean(b, fast, 4 * fast, k), Mean(b, 4 * fast, 4 * fast, k), Std(root, Diff(b), VOL_SPAN, VOL_SPAN, k),
                scalar, c);
  }

  /** Quoting the asset in another unit changes neither the positions nor the price changes they earn. */
  lemma PositionHasNoUnit(root: real -> real, a: Values, b: Values, c: real, fill: Fill, mode: Mode, k: nat)
    requires Scaled(a, b, c) && c > 0.0 && Homogeneous(root) && k < |a|
    ensures Position(root, b, fill, mode, k) == Position(root, a, fill, mode, k)
    ensures PctChange(b, fill) == PctChange(a, fill)
  {
    SpeedHasNoUnit(root, a, b, c, 8, 5.3, k);
    SpeedHasNoUnit(root, a, b, c, 16, 3.75, k);
    SpeedHasNoUnit(root, a, b, c, 32, 2.65, k);
    SpeedHasNoUnit(root, a, b, c, 64, 1.87, k);
    PctChangeHasNoUnit(a, b, c, fill);
  }
}
