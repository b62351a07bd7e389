/**
 * The point-in-time scorer of backtest.py (`compute_score_at_date`): the indicators computed
 * on the rows up to and including the scoring date, neutral values where an indicator is
 * missing, and the weighted sum of six sub-scores. RSI, the 20-day volatility and the six
 * normalisers live in a module outside this model and are parameters here.
 */
module Scoring {
  import opened Wrappers
  import opened Numeric
  import opened ConfigValues
  import opened ConfigResolve

  /** A closing price: positive (rows with missing values are dropped before scoring). */
  type Price = r: real | r > 0.0 witness 1.0

  /** One daily row: its timestamp and its close. */
  datatype Bar = Bar(time: int, close: Price)

  /** Timestamps strictly increase along the frame's index. */
  predicate Increasing(rows: seq<Bar>)
  {
    forall i, j :: 0 <= i < j < |rows| ==> rows[i].time < rows[j].time
  }

  /** A daily price frame. */
  type Series = rows: seq<Bar> | Increasing(rows) witness []

  /** Fewer rows than this up to the scoring date give no score. */
  const MIN_HISTORY: nat := 200

  const RSI_NEUTRAL: real := 50.0

  function MinNat(a: nat, b: nat): nat
  {
    if a <= b then a else b
  }

  /** The `Close` column. */
  function Closes(rows: seq<Bar>): (c: seq<real>)
    ensures |c| == |rows|
    ensures forall k :: 0 <= k < |c| ==> c[k] == rows[k].close && c[k] > 0.0
    ensures AllPositive(c)
  {
    seq(|rows|, k requires 0 <= k < |rows| => rows[k].close as real)
  }

  /** The closes of the last `w` rows, or of all of them when there are fewer (`min_periods=1`). */
  function Window(c: seq<real>, w: nat): (t: seq<real>)
    ensures |t| == MinNat(w, |c|)
    ensures forall k :: 0 <= k < |t| ==> t[k] == c[|c| - |t| + k]
  {
    c[|c| - MinNat(w, |c|)..]
  }

  /** `rolling(w, min_periods=1).mean()` at the last row. */
  function RollingMean(c: seq<real>, w: nat): real
    requires c != [] && w >= 1
  {
    Mean(Window(c, w))
  }

  /** `rolling(w, min_periods=1).max()` at the last row. */
  function RollingMax(c: seq<real>, w: nat): real
    requires c != [] && w >= 1
  {
    Max(Window(c, w))
  }

  predicate AllPositive(c: seq<real>)
  {
    forall k :: 0 <= k < |c| ==> c[k] > 0.0
  }

  /** `(High90 - Close) / High90` at the last row. */
  function Drawdown90(c: seq<real>): real
    requires c != [] && AllPositive(c)
  {
    HighAtLeastClose(c, 90);
    (RollingMax(c, 90) - c[|c| - 1]) / RollingMax(c, 90)
  }

  /** The rolling maximum includes the last close. */
  lemma HighAtLeastClose(c: seq<real>, w: nat)
    requires c != [] && AllPositive(c) && w >= 1
    ensures RollingMax(c, w) >= c[|c| - 1] > 0.0
  {
    var t := Window(c, w);
    assert t[|t| - 1] == c[|c| - 1];
  }

  /** The 90-day high includes today's close, so the drawdown lies in [0, 1). */
  lemma DrawdownRange(c: seq<real>)
    requires c != [] && AllPositive(c)
    ensures 0.0 <= Drawdown90(c) < 1.0
  {
    HighAtLeastClose(c, 90);
    RatioBelowOne(RollingMax(c, 90) - c[|c| - 1], RollingMax(c, 90));
  }

  lemma RatioBelowOne(a: real, b: real)
    requires 0.0 <= a < b
    ensures 0.0 <= a / b < 1.0
  {
    var q := a / b;
    assert q * b == a;
    if q >= 1.0 {
      MulMonotone(1.0, q, b);
    }
    DivideBounds(0.0, a, a, b);
  }

  /** `pct_change(periods=30)` at the last row; missing when there are 30 rows or fewer. */
  function Momentum30(c: seq<real>): (m: Option<real>)
    requires AllPositive(c)
    ensures m.Some? <==> |c| > 30
  {
    if |c| > 30 then Some((c[|c| - 1] - c[|c| - 31]) / c[|c| - 31]) else None
  }

  /** The indicators computed outside this model: `compute_rsi(Close, 14)` and the 20-day volatility. */
  datatype Indicators = Indicators(rsi14: seq<real> -> Option<real>, vol20: seq<real> -> Option<real>)

  /** The six `score_*` normalisers. */
  datatype Normalisers = Normalisers(
    drawdown: (real, real) -> real,
    rsi: real -> real,
    distMa50: (real, real) -> real,
    momentum: real -> real,
    trendMa200: (real, real) -> real,
    volatility: (real, real) -> real)

  /** Every normaliser maps into [0, 1]. */
  ghost predicate InUnitRange(norm: Normalisers)
  {
    && (forall x, cap :: 0.0 <= norm.drawdown(x, cap) <= 1.0)
    && (forall x :: 0.0 <= norm.rsi(x) <= 1.0)
    && (forall x, ma :: 0.0 <= norm.distMa50(x, ma) <= 1.0)
    && (forall x :: 0.0 <= norm.momentum(x) <= 1.0)
    && (forall x, ma :: 0.0 <= norm.trendMa200(x, ma) <= 1.0)
    && (forall x, cap :: 0.0 <= norm.volatility(x, cap) <= 1.0)
  }

  /** `cfg["weights"]`. */
  datatype Weights = Weights(drawdown90: real, rsi14: real, distMa50: real,
                             momentum30: real, trendMa200: real, volatility20: real)

  /** What the scorer reads from the configuration. */
  datatype ScoreParams = ScoreParams(drawdownCap: real, volatilityCap: real, weights: Weights)

  /** Non-negative weights summing to 1. */
  predicate ConvexWeights(w: Weights)
  {
    && w.drawdown90 >= 0.0 && w.rsi14 >= 0.0 && w.distMa50 >= 0.0
    && w.momentum30 >= 0.0 && w.trendMa200 >= 0.0 && w.volatility20 >= 0.0
    && w.drawdown90 + w.rsi14 + w.distMa50 + w.momentum30 + w.trendMa200 + w.volatility20 == 1.0
  }

  /** The dictionary `compute_score_at_date` returns. */
  datatype Snapshot = Snapshot(date: int, score: real, close: real, rsi14: real, ma50: real, ma200: real)

  /** The six sub-scores. */
  datatype SubScores = SubScores(drawdown: real, rsi: real, distMa50: real,
                                 momentum: real, trendMa200: real, volatility: real)

  /** The last row's indicator values, neutral values standing in for missing ones. */
  datatype Readings = Readings(close: real, ma50: real, ma200: real, rsi14: real,
                               drawdown90: real, vol20: real, momentum30: real)

  function ReadingsOf(c: seq<real>, ind: Indicators): (r: Readings)
    requires c != [] && AllPositive(c)
    ensures ind.rsi14(c).None? ==> r.rsi14 == RSI_NEUTRAL
    ensures ind.vol20(c).None? ==> r.vol20 == 0.0
    ensures |c| <= 30 ==> r.momentum30 == 0.0
  {
    Readings(c[|c| - 1], RollingMean(c, 50), RollingMean(c, 200), ind.rsi14(c).GetOr(RSI_NEUTRAL),
             Drawdown90(c), ind.vol20(c).GetOr(0.0), Momentum30(c).GetOr(0.0))
  }

  function SubScoresOf(r: Readings, p: ScoreParams, norm: Normalisers): SubScores
  {
    SubScores(
      norm.drawdown(r.drawdown90, p.drawdownCap),
      norm.rsi(r.rsi14),
      norm.distMa50(r.close, r.ma50),
      norm.momentum(r.momentum30),
      norm.trendMa200(r.close, r.ma200),
      norm.volatility(r.vol20, p.volatilityCap))
  }

  function Composite(w: Weights, s: SubScores): real
  {
    w.drawdown90 * s.drawdown + w.rsi14 * s.rsi + w.distMa50 * s.distMa50
    + w.momentum30 * s.momentum + w.trendMa200 * s.trendMa200 + w.volatility20 * s.volatility
  }

  /** Sub-scores in [0, 1] and convex weights give a composite in [0, 1]. */
  lemma CompositeRange(w: Weights, s: SubScores)
    requires ConvexWeights(w)
    requires 0.0 <= s.drawdown <= 1.0 && 0.0 <= s.rsi <= 1.0 && 0.0 <= s.distMa50 <= 1.0
    requires 0.0 <= s.momentum <= 1.0 && 0.0 <= s.trendMa200 <= 1.0 && 0.0 <= s.volatility <= 1.0
    ensures 0.0 <= Composite(w, s) <= 1.0
  {
    var a := Weighted(w.drawdown90, s.drawdown);
    var b := Weighted(w.rsi14, s.rsi);
    var c := Weighted(w.distMa50, s.distMa50);
    var d := Weighted(w.momentum30, s.momentum);
    var e := Weighted(w.trendMa200, s.trendMa200);
    var f := Weighted(w.volatility20, s.volatility);
    assert Composite(w, s) == a + b + c + d + e + f;
  }

  /** One weighted sub-score, bounded by its weight. */
  function Weighted(w: real, x: real): (t: real)
    requires w >= 0.0 && 0.0 <= x <= 1.0
    ensures t == w * x
    ensures 0.0 <= t <= w
  {
    MulMonotone(0.0, x, w);
    MulMonotone(x, 1.0, w);
    w * x
  }

  /**
   * `compute_score_at_date` on `historical_data`, the rows up to and including the scoring
   * date: nothing below 200 rows, otherwise the snapshot of the last row.
   */
  function ScoreOn(h: seq<Bar>, p: ScoreParams, ind: Indicators, norm: Normalisers): (r: Option<Snapshot>)
    ensures r.None? <==> |h| < MIN_HISTORY
    ensures r.Some? ==>
      && r.value.date == h[|h| - 1].time
      && r.value.close == h[|h| - 1].close
      && r.value.ma50 == Mean(Closes(h)[|h| - 50..])
      && r.value.ma200 == Mean(Closes(h)[|h| - 200..])
      && (ind.rsi14(Closes(h)).None? ==> r.value.rsi14 == RSI_NEUTRAL)
      && (ind.rsi14(Closes(h)).Some? ==> r.value.rsi14 == Round(ind.rsi14(Closes(h)).value, TWO_DECIMALS))
      && r.value.score == ScoreValue(ReadingsOf(Closes(h), ind), p, norm)
  {
    if |h| < MIN_HISTORY then None
    else
      var c := Closes(h);
      assert AllPositive(c);
      assert Window(c, 50) == c[|c| - 50..] && Window(c, 200) == c[|c| - 200..];
      var latest := ReadingsOf(c, ind);
      RoundWhole(50, TWO_DECIMALS);
      Some(Snapshot(
        h[|h| - 1].time,
        ScoreValue(latest, p, norm),
        latest.close,
        Round(latest.rsi14, TWO_DECIMALS),
        latest.ma50,
        latest.ma200))
  }

  /** `round(100 * composite, 1)`. */
  function ScoreValue(r: Readings, p: ScoreParams, norm: Normalisers): real
  {
    Round(100.0 * Composite(p.weights, SubScoresOf(r, p, norm)), ONE_DECIMAL)
  }

  /** The score is a percentage when the normalisers map into [0, 1] and the weights are convex. */
  lemma ScoreValueInRange(r: Readings, p: ScoreParams, norm: Normalisers)
    requires InUnitRange(norm) && ConvexWeights(p.weights)
    ensures 0.0 <= ScoreValue(r, p, norm) <= 100.0
  {
    SubScoresInRange(r, p, norm);
    CompositeRange(p.weights, SubScoresOf(r, p, norm));
    RoundWithin(100.0 * Composite(p.weights, SubScoresOf(r, p, norm)), 0, 100, ONE_DECIMAL);
  }

  lemma SubScoresInRange(r: Readings, p: ScoreParams, norm: Normalisers)
    requires InUnitRange(norm)
    ensures var s := SubScoresOf(r, p, norm);
      && 0.0 <= s.drawdown <= 1.0 && 0.0 <= s.rsi <= 1.0 && 0.0 <= s.distMa50 <= 1.0
      && 0.0 <= s.momentum <= 1.0 && 0.0 <= s.trendMa200 <= 1.0 && 0.0 <= s.volatility <= 1.0
  {
  }

  /** The number of rows up to and including index `i` (`df.iloc[:i+1]`). */
  function Seen(rows: Series, i: nat): (n: nat)
    ensures n <= |rows| && n <= i + 1
    ensures n == i + 1 || n == |rows|
  {
    MinNat(i + 1, |rows|)
  }

  /**
   * `compute_score_at_date(df, i, cfg)`: the score of the rows up to and including index `i`;
   * nothing when there are fewer than 200 of them.
   */
  function ScoreAt(rows: Series, i: nat, p: ScoreParams, ind: Indicators, norm: Normalisers): (r: Option<Snapshot>)
    ensures r.None? <==> Seen(rows, i) < MIN_HISTORY
    ensures r.Some? ==> r.value.date == rows[Seen(rows, i) - 1].time
    ensures r.Some? ==> r.value.close == rows[Seen(rows, i) - 1].close
    ensures r.Some? ==> r.value.ma50 == Mean(Closes(rows)[Seen(rows, i) - 50..Seen(rows, i)])
    ensures r.Some? ==> r.value.ma200 == Mean(Closes(rows)[Seen(rows, i) - 200..Seen(rows, i)])
    ensures r.Some? && ind.rsi14(Closes(rows[..Seen(rows, i)])).None? ==> r.value.rsi14 == RSI_NEUTRAL
    ensures r.Some? && ind.rsi14(Closes(rows[..Seen(rows, i)])).Some? ==>
      r.value.rsi14 == Round(ind.rsi14(Closes(rows[..Seen(rows, i)])).value, TWO_DECIMALS)
    ensures r.Some? ==> r.value.score == ScoreValue(ReadingsOf(Closes(rows[..Seen(rows, i)]), ind), p, norm)
  {
    var n := Seen(rows, i);
    var h := rows[..n];
    if |h| >= MIN_HISTORY then
      ClosesTail(rows, n, 50);
      ClosesTail(rows, n, 200);
      assert h[|h| - 1] == rows[n - 1];
      ScoreOn(h, p, ind, norm)
    else
      ScoreOn(h, p, ind, norm)
  }

  /** The last `w` closes of a prefix are the closes at those positions. */
  lemma ClosesTail(rows: seq<Bar>, n: nat, w: nat)
    requires w <= n <= |rows|
    ensures Closes(rows[..n])[n - w..] == Closes(rows)[n - w..n]
  {
    var a, b := Closes(rows[..n])[n - w..], Closes(rows)[n - w..n];
    assert forall k :: 0 <= k < w ==> a[k] == rows[n - w + k].close == b[k];
  }

  /** No lookahead: rows after the scoring date do not change the score. */
  lemma NoLookahead(rows: Series, more: Series, i: nat, p: ScoreParams, ind: Indicators, norm: Normalisers)
    requires i < |rows| <= |more| && more[..|rows|] == rows
    ensures ScoreAt(more, i, p, ind, norm) == ScoreAt(rows, i, p, ind, norm)
  {
    assert more[..i + 1] == rows[..i + 1];
  }

  /** The score is a percentage when the normalisers map into [0, 1] and the weights are convex. */
  lemma ScoreInRange(rows: Series, i: nat, p: ScoreParams, ind: Indicators, norm: Normalisers)
    requires InUnitRange(norm) && ConvexWeights(p.weights)
    ensures ScoreAt(rows, i, p, ind, norm).Some? ==> 0.0 <= ScoreAt(rows, i, p, ind, norm).value.score <= 100.0
  {
    var n := Seen(rows, i);
    if n >= MIN_HISTORY {
      var latest := ReadingsOf(Closes(rows[..n]), ind);
      assert ScoreAt(rows, i, p, ind, norm).value.score == ScoreValue(latest, p, norm);
      ScoreValueInRange(latest, p, norm);
    }
  }

  /** The six entries `compute_score_at_date` reads from `cfg["weights"]`. */
  const WEIGHT_KEYS: seq<string> := ["drawdown90", "rsi14", "dist_ma50", "momentum30", "trend_ma200", "volatility20"]

  /** A numeric entry of a configuration dictionary. */
  function NumAt(c: Config, key: string): Option<real>
  {
    if key in c && c[key].Num? then Some(c[key].n) else None
  }

  /**
   * The scorer's parameters read from a configuration; None where a lookup would raise or a
   * value is not a number.
   */
  function ParamsFromConfig(c: Config): (r: Option<ScoreParams>)
    ensures r.Some? ==> "weights" in c && c["weights"].Map?
    ensures r.Some? ==> NumAt(c, "drawdown_cap") == Some(r.value.drawdownCap)
    ensures r.Some? ==> NumAt(c, "volatility_cap") == Some(r.value.volatilityCap)
    ensures r.Some? ==> var w := c["weights"].entries;
      && NumAt(w, "drawdown90") == Some(r.value.weights.drawdown90)
      && NumAt(w, "rsi14") == Some(r.value.weights.rsi14)
      && NumAt(w, "dist_ma50") == Some(r.value.weights.distMa50)
      && NumAt(w, "momentum30") == Some(r.value.weights.momentum30)
      && NumAt(w, "trend_ma200") == Some(r.value.weights.trendMa200)
      && NumAt(w, "volatility20") == Some(r.value.weights.volatility20)
    ensures r.None? ==>
      || NumAt(c, "drawdown_cap").None?
      || NumAt(c, "volatility_cap").None?
      || !("weights" in c && c["weights"].Map?)
      || exists k :: k in WEIGHT_KEYS && NumAt(c["weights"].entries, k).None?
  {
    if !("weights" in c && c["weights"].Map?) then None
    else
      var w := c["weights"].entries;
      var dc, vc := NumAt(c, "drawdown_cap"), NumAt(c, "volatility_cap");
      var a, b, d := NumAt(w, "drawdown90"), NumAt(w, "rsi14"), NumAt(w, "dist_ma50");
      var e, f, g := NumAt(w, "momentum30"), NumAt(w, "trend_ma200"), NumAt(w, "volatility20");
      if dc.Some? && vc.Some? && a.Some? && b.Some? && d.Some? && e.Some? && f.Some? && g.Some? then
        Some(ScoreParams(dc.value, vc.value, Weights(a.value, b.value, d.value, e.value, f.value, g.value)))
      else None
  }

  /**
   * The configuration `get_config` builds from an empty YAML dictionary, before any store
   * override, yields the defaults `get_config` sets (core/config.py:116-133) for the caps and
   * weights, and those weights are convex. (The backtest script reads the raw YAML instead and
   * gets no defaults; see TickerBacktest.)
   */
  lemma DefaultParamsConvex()
    ensures WithDefaults(map[]).Some?
    ensures ParamsFromConfig(WithDefaults(map[]).value) ==
      Some(ScoreParams(0.25, 0.10, Weights(0.25, 0.25, 0.20, 0.15, 0.10, 0.05)))
    ensures ConvexWeights(Weights(0.25, 0.25, 0.20, 0.15, 0.10, 0.05))
  {
    var c := TOP_DEFAULTS["weights" := Map(WEIGHT_DEFAULTS)];
    assert TOP_DEFAULTS + map[] == TOP_DEFAULTS;
    assert WEIGHT_DEFAULTS + map[] == WEIGHT_DEFAULTS;
    assert WithDefaults(map[]) == Some(c);
    TopDefaultNumbers();
    WeightDefaultNumbers();
  }

  lemma TopDefaultNumbers()
    ensures var c := TOP_DEFAULTS["weights" := Map(WEIGHT_DEFAULTS)];
      NumAt(c, "drawdown_cap") == Some(0.25) && NumAt(c, "volatility_cap") == Some(0.10)
  {
    assert TOP_DEFAULTS["drawdown_cap"] == Num(0.25);
    assert TOP_DEFAULTS["volatility_cap"] == Num(0.10);
  }

  lemma WeightDefaultNumbers()
    ensures var w := WEIGHT_DEFAULTS;
      && NumAt(w, "drawdown90") == Some(0.25) && NumAt(w, "rsi14") == Some(0.25)
      && NumAt(w, "dist_ma50") == Some(0.20) && NumAt(w, "momentum30") == Some(0.15)
      && NumAt(w, "trend_ma200") == Some(0.10) && NumAt(w, "volatility20") == Some(0.05)
  {
  }
}
