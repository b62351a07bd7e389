/**
 * Exact-real stand-ins for the pandas/numpy numerics the backtest uses:
 * sums, means, maxima and minima of a column, and Python's `round`.
 */
module Numeric {

  /** Scale factors for rounding to one and to two decimals. */
  const ONE_DECIMAL: real := 10.0
  const TWO_DECIMALS: real := 100.0

  /** The integer nearest to `y`, ties going to the even neighbour (Python's rounding rule). */
  function RoundHalfEven(y: real): (n: int)
    ensures y - 0.5 <= n as real <= y + 0.5
  {
    var f := y.Floor;
    var frac := y - f as real;
    if frac > 0.5 || (frac == 0.5 && f % 2 != 0) then f + 1 else f
  }

  /** `round(x, d)` with `scale` = 10^d: `x` rounded half-to-even at `d` decimals. */
  function Round(x: real, scale: real): real
    requires scale >= 1.0
  {
    RoundHalfEven(x * scale) as real / scale
  }

  lemma DivideBounds(lo: real, m: real, hi: real, p: real)
    requires p > 0.0 && lo <= m <= hi
    ensures lo / p <= m / p <= hi / p
  {
  }

  lemma DivCancel(n: real, m: real)
    requires n > 0.0
    ensures m * n / n == m
  {
  }

  lemma MulMonotone(x: real, y: real, p: real)
    requires x <= y && p >= 0.0
    ensures x * p <= y * p
  {
  }

  /** Rounding moves a value by at most half a unit of the last kept decimal. */
  lemma {:induction false} RoundError(x: real, scale: real)
    requires scale >= 1.0
    ensures x - 0.5 / scale <= Round(x, scale) <= x + 0.5 / scale
  {
    var n := RoundHalfEven(x * scale) as real;
    DivideBounds(x * scale - 0.5, n, x * scale + 0.5, scale);
    assert (x * scale - 0.5) / scale == x - 0.5 / scale;
    assert (x * scale + 0.5) / scale == x + 0.5 / scale;
  }

  lemma {:induction false} RoundHalfEvenMonotone(y1: real, y2: real)
    requires y1 <= y2
    ensures RoundHalfEven(y1) <= RoundHalfEven(y2)
  {
    var f1, f2 := y1.Floor, y2.Floor;
    assert f1 <= f2;
    if f1 == f2 {
      assert y1 - f1 as real <= y2 - f2 as real;
    }
  }

  /** Rounding never reverses the order of two values. */
  lemma {:induction false} RoundMonotone(x: real, y: real, scale: real)
    requires x <= y && scale >= 1.0
    ensures Round(x, scale) <= Round(y, scale)
  {
    MulMonotone(x, y, scale);
    RoundHalfEvenMonotone(x * scale, y * scale);
    var nx, ny := RoundHalfEven(x * scale) as real, RoundHalfEven(y * scale) as real;
    DivideBounds(nx, nx, ny, scale);
  }

  /** A real with no fractional part, such as the scale factors 10 and 100. */
  ghost predicate Whole(r: real)
  {
    r.Floor as real == r
  }

  lemma CastProduct(a: int, b: int)
    ensures (a * b) as real == a as real * b as real
  {
  }

  lemma RoundUnfold(x: real, scale: real)
    requires scale >= 1.0
    ensures Round(x, scale) == RoundHalfEven(x * scale) as real / scale
  {
  }

  /** A whole number is its own rounding. */
  lemma {:induction false} RoundWhole(k: int, scale: real)
    requires scale >= 1.0 && Whole(scale)
    ensures Round(k as real, scale) == k as real
  {
    var s := scale.Floor;
    CastProduct(k, s);
    var x := k as real;
    var y := x * scale;
    assert y == (k * s) as real;
    assert y.Floor == k * s;
    assert RoundHalfEven(y) as real == y;
    RoundUnfold(x, scale);
    DivCancel(scale, x);
  }

  /** Rounding keeps a value inside whole-number bounds, such as 0 and 100. */
  lemma RoundWithin(x: real, lo: int, hi: int, scale: real)
    requires lo as real <= x <= hi as real
    requires scale >= 1.0 && Whole(scale)
    ensures lo as real <= Round(x, scale) <= hi as real
  {
    RoundMonotone(lo as real, x, scale);
    RoundMonotone(x, hi as real, scale);
    RoundWhole(lo, scale);
    RoundWhole(hi, scale);
  }

  function Sum(s: seq<real>): real
  {
    if s == [] then 0.0 else s[0] + Sum(s[1..])
  }

  /** Arithmetic mean of a non-empty column (`Series.mean()`). */
  function Mean(s: seq<real>): real
    requires s != []
  {
    Sum(s) / |s| as real
  }

  /** Largest element of a non-empty column (`Series.max()`). */
  function Max(s: seq<real>): (r: real)
    requires s != []
    ensures r in s
    ensures forall k :: 0 <= k < |s| ==> s[k] <= r
  {
    if |s| == 1 then s[0]
    else
      var m := Max(s[1..]);
      assert forall k :: 1 <= k < |s| ==> s[k] == s[1..][k - 1];
      if s[0] >= m then s[0] else m
  }

  /** Smallest element of a non-empty column (`Series.min()`). */
  function Min(s: seq<real>): (r: real)
    requires s != []
    ensures r in s
    ensures forall k :: 0 <= k < |s| ==> r <= s[k]
  {
    if |s| == 1 then s[0]
    else
      var m := Min(s[1..]);
      assert forall k :: 1 <= k < |s| ==> s[k] == s[1..][k - 1];
      if s[0] <= m then s[0] else m
  }

  /** Number of strictly positive elements (`(col > 0).sum()`). */
  function CountPositive(s: seq<real>): (n: nat)
    ensures n <= |s|
  {
    if s == [] then 0 else (if s[0] > 0.0 then 1 else 0) + CountPositive(s[1..])
  }

  /** Every element is positive exactly when all are counted, none exactly when none are. */
  lemma {:induction false} CountPositiveExtremes(s: seq<real>)
    ensures CountPositive(s) == |s| <==> forall k :: 0 <= k < |s| ==> s[k] > 0.0
    ensures CountPositive(s) == 0 <==> forall k :: 0 <= k < |s| ==> s[k] <= 0.0
  {
    if s != [] {
      CountPositiveExtremes(s[1..]);
      assert forall k :: 1 <= k < |s| ==> s[k] == s[1..][k - 1];
    }
  }

  lemma {:induction false} SumBounds(s: seq<real>, lo: real, hi: real)
    requires forall k :: 0 <= k < |s| ==> lo <= s[k] <= hi
    ensures |s| as real * lo <= Sum(s) <= |s| as real * hi
  {
    if s != [] {
      SumBounds(s[1..], lo, hi);
      assert |s[1..]| as real * lo + lo == |s| as real * lo;
      assert |s[1..]| as real * hi + hi == |s| as real * hi;
    }
  }

  /** The mean of a column lies between its minimum and its maximum. */
  lemma MeanBetween(s: seq<real>)
    requires s != []
    ensures Min(s) <= Mean(s) <= Max(s)
  {
    var n, lo, hi := |s| as real, Min(s), Max(s);
    SumBounds(s, lo, hi);
    DivideBounds(n * lo, Sum(s), n * hi, n);
    DivCancel(n, lo);
    DivCancel(n, hi);
    assert n * lo == lo * n && n * hi == hi * n;
  }

  /** Percentage of strictly positive elements (`(col > 0).sum() / len(col) * 100`). */
  function PercentPositive(s: seq<real>): (r: real)
    requires s != []
    ensures 0.0 <= r <= 100.0
  {
    var n := |s| as real;
    var k := CountPositive(s) as real;
    DivideBounds(0.0, k, n, n);
    k / n * 100.0
  }
}
