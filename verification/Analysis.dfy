/**
 * `BacktestEngine.analyze_results` (core/backtest.py) and `analyze_results` (backtest.py):
 * the scores binned by `pd.cut` into right-closed bins, the strict `> 55` / `< 45` filters,
 * and the counts, means, extremes and success rates computed over them.
 */
module Analysis {
  import opened Wrappers
  import opened Numeric
  import opened Scoring
  import opened WalkForward

  /** The labels of the three bins. */
  datatype Category = Unfavorable | Neutral | Favorable

  const UNFAVORABLE_BELOW: real := 45.0
  const FAVORABLE_ABOVE: real := 55.0

  /**
   * `pd.cut(score, bins=[0, 45, 55, 100])`: bins (0, 45], (45, 55], (55, 100], closed on the
   * right; a score outside (0, 100] falls in no bin.
   */
  function CategoryOf(score: real): (c: Option<Category>)
    ensures c == Some(Unfavorable) <==> 0.0 < score <= 45.0
    ensures c == Some(Neutral) <==> 45.0 < score <= 55.0
    ensures c == Some(Favorable) <==> 55.0 < score <= 100.0
  {
    if score <= 0.0 || score > 100.0 then None
    else if score <= 45.0 then Some(Unfavorable)
    else if score <= 55.0 then Some(Neutral)
    else Some(Favorable)
  }

  /** The filter of the `favorable` block. */
  predicate IsFavorable(score: real)
  {
    score > FAVORABLE_ABOVE
  }

  /** The filter of the `unfavorable` block. */
  predicate IsUnfavorable(score: real)
  {
    score < UNFAVORABLE_BELOW
  }

  /** A row of the analysed frame: the record and the `score_category` column added to it. */
  datatype Categorised = Categorised(record: Record, category: Option<Category>)

  /** The frame with its `score_category` column. */
  function Categorise(rs: seq<Record>): (out: seq<Categorised>)
    ensures |out| == |rs|
    ensures forall k :: 0 <= k < |rs| ==> out[k].record == rs[k] && out[k].category == CategoryOf(rs[k].snapshot.score)
  {
    seq(|rs|, k requires 0 <= k < |rs| => Categorised(rs[k], CategoryOf(rs[k].snapshot.score)))
  }

  /** The rows whose score passes `keep`, in frame order (`df[keep(df["score"])]`). */
  function Select(rs: seq<Record>, keep: real -> bool): (out: seq<Record>)
    ensures |out| <= |rs|
    ensures forall r :: r in out <==> r in rs && keep(r.snapshot.score)
    ensures out == [] <==> forall k :: 0 <= k < |rs| ==> !keep(rs[k].snapshot.score)
  {
    if rs == [] then []
    else
      var rest := Select(rs[1..], keep);
      assert forall k :: 1 <= k < |rs| ==> rs[k] in rs[1..];
      assert rest != [] ==> rest[0] in rest;
      (if keep(rs[0].snapshot.score) then [rs[0]] else []) + rest
  }

  /** Each passing row is kept once for each of its occurrences, and every other row is dropped. */
  lemma {:induction false} SelectCounts(rs: seq<Record>, keep: real -> bool)
    ensures forall r :: multiset(Select(rs, keep))[r] == if keep(r.snapshot.score) then multiset(rs)[r] else 0
  {
    if rs != [] {
      SelectCounts(rs[1..], keep);
      assert rs == [rs[0]] + rs[1..];
      assert multiset(rs) == multiset{rs[0]} + multiset(rs[1..]);
    }
  }

  /** Filtering a concatenation filters each part: the kept rows stay in frame order. */
  lemma {:induction false} SelectAppend(a: seq<Record>, b: seq<Record>, keep: real -> bool)
    ensures Select(a + b, keep) == Select(a, keep) + Select(b, keep)
  {
    if a == [] {
      assert a + b == b;
      assert Select(a, keep) == [];
    } else {
      var head := if keep(a[0].snapshot.score) then [a[0]] else [];
      assert a + b == [a[0]] + (a[1..] + b);
      assert a == [a[0]] + a[1..];
      SelectCons(a[0], a[1..] + b, keep);
      SelectCons(a[0], a[1..], keep);
      SelectAppend(a[1..], b, keep);
      ConcatAssoc(head, Select(a[1..], keep), Select(b, keep));
    }
  }

  lemma SelectCons(x: Record, rest: seq<Record>, keep: real -> bool)
    ensures Select([x] + rest, keep) == (if keep(x.snapshot.score) then [x] else []) + Select(rest, keep)
  {
    assert ([x] + rest)[1..] == rest;
  }

  /** The `return_30d` column. */
  function ReturnsOf(rs: seq<Record>): (v: seq<real>)
    ensures |v| == |rs|
    ensures forall k :: 0 <= k < |rs| ==> v[k] == rs[k].return30
  {
    seq(|rs|, k requires 0 <= k < |rs| => rs[k].return30)
  }

  /** `by_category`: the group's size and mean return (NaN, here None, for an empty group). */
  datatype CategoryStats = CategoryStats(count: nat, meanReturn: Option<real>)

  /** The `favorable` block (without the median). */
  datatype FavorableStats = FavorableStats(count: nat, meanReturn: real, successRate: real,
                                           maxReturn: real, minReturn: real)

  /** The `unfavorable` block (without the median). */
  datatype UnfavorableStats = UnfavorableStats(count: nat, meanReturn: real)

  /** The `global` block (without the median and the standard deviation). */
  datatype GlobalStats = GlobalStats(totalSignals: nat, meanReturn: real, successRate: real)

  /** The analysis dictionary (without the correlation). */
  datatype Report = Report(byCategory: map<Category, CategoryStats>, favorable: Option<FavorableStats>,
                           unfavorable: Option<UnfavorableStats>, global: GlobalStats)

  function InCategory(c: Category): real -> bool
  {
    score => CategoryOf(score) == Some(c)
  }

  function CategoryBlock(rs: seq<Record>, c: Category): (s: CategoryStats)
    ensures s.count == |Select(rs, InCategory(c))|
    ensures s.meanReturn.None? <==> forall k :: 0 <= k < |rs| ==> CategoryOf(rs[k].snapshot.score) != Some(c)
  {
    var group := Select(rs, InCategory(c));
    CategoryStats(|group|, if group == [] then None else Some(Mean(ReturnsOf(group))))
  }

  /**
   * The statistics of the favorable rows' returns: the success rate is a percentage and the
   * rounded minimum, mean and maximum are ordered.
   */
  function FavorableBlock(rets: seq<real>): (s: FavorableStats)
    requires rets != []
    ensures s.count == |rets|
    ensures 0.0 <= s.successRate <= 100.0
    ensures s.minReturn <= s.meanReturn <= s.maxReturn
  {
    MeanBetween(rets);
    RoundMonotone(Min(rets), Mean(rets), TWO_DECIMALS);
    RoundMonotone(Mean(rets), Max(rets), TWO_DECIMALS);
    RoundWithin(PercentPositive(rets), 0, 100, ONE_DECIMAL);
    FavorableStats(|rets|, Round(Mean(rets), TWO_DECIMALS), Round(PercentPositive(rets), ONE_DECIMAL),
                   Round(Max(rets), TWO_DECIMALS), Round(Min(rets), TWO_DECIMALS))
  }

  /** The statistics over every row: the success rate is a percentage. */
  function GlobalBlock(rs: seq<Record>): (s: GlobalStats)
    requires rs != []
    ensures s.totalSignals == |rs|
    ensures 0.0 <= s.successRate <= 100.0
  {
    var rets := ReturnsOf(rs);
    RoundWithin(PercentPositive(rets), 0, 100, ONE_DECIMAL);
    GlobalStats(|rs|, Round(Mean(rets), TWO_DECIMALS), Round(PercentPositive(rets), ONE_DECIMAL))
  }

  /** The `favorable` block: present exactly when some score is above 55. */
  function FavorableOf(rs: seq<Record>): (f: Option<FavorableStats>)
    ensures f.Some? <==> exists k :: 0 <= k < |rs| && rs[k].snapshot.score > FAVORABLE_ABOVE
    ensures f.Some? ==>
      && f.value.count == |Select(rs, IsFavorable)|
      && 0.0 <= f.value.successRate <= 100.0
      && f.value.minReturn <= f.value.meanReturn <= f.value.maxReturn
  {
    var favorable := Select(rs, IsFavorable);
    if favorable == [] then None else Some(FavorableBlock(ReturnsOf(favorable)))
  }

  /** The `unfavorable` block: present exactly when some score is below 45. */
  function UnfavorableOf(rs: seq<Record>): (u: Option<UnfavorableStats>)
    ensures u.Some? <==> exists k :: 0 <= k < |rs| && rs[k].snapshot.score < UNFAVORABLE_BELOW
    ensures u.Some? ==> u.value.count == |Select(rs, IsUnfavorable)|
  {
    var unfavorable := Select(rs, IsUnfavorable);
    if unfavorable == [] then None
    else Some(UnfavorableStats(|unfavorable|, Round(Mean(ReturnsOf(unfavorable)), TWO_DECIMALS)))
  }

  /** `by_category`: every bin appears, empty ones included. */
  function ByCategory(rs: seq<Record>): (m: map<Category, CategoryStats>)
    ensures m.Keys == {Unfavorable, Neutral, Favorable}
    ensures forall c :: c in m ==> m[c] == CategoryBlock(rs, c)
  {
    map c | c in {Unfavorable, Neutral, Favorable} :: CategoryBlock(rs, c)
  }

  /**
   * `BacktestEngine.analyze_results`: nothing (`{}`) for an empty frame; otherwise the bins,
   * the two filtered blocks and the global block.
   */
  function AnalyzeResults(rs: seq<Record>): (r: Option<Report>)
    ensures r.None? <==> rs == []
    ensures r.Some? ==> r.value.byCategory.Keys == {Unfavorable, Neutral, Favorable}
    ensures r.Some? ==> (r.value.favorable.Some? <==> exists k :: 0 <= k < |rs| && rs[k].snapshot.score > FAVORABLE_ABOVE)
    ensures r.Some? ==> (r.value.unfavorable.Some? <==> exists k :: 0 <= k < |rs| && rs[k].snapshot.score < UNFAVORABLE_BELOW)
    ensures r.Some? && r.value.favorable.Some? ==>
      && r.value.favorable.value.count == |Select(rs, IsFavorable)|
      && 0.0 <= r.value.favorable.value.successRate <= 100.0
      && r.value.favorable.value.minReturn <= r.value.favorable.value.meanReturn <= r.value.favorable.value.maxReturn
    ensures r.Some? && r.value.unfavorable.Some? ==> r.value.unfavorable.value.count == |Select(rs, IsUnfavorable)|
    ensures r.Some? ==> r.value.global.totalSignals == |rs| && 0.0 <= r.value.global.successRate <= 100.0
  {
    if rs == [] then None
    else Some(Report(ByCategory(rs), FavorableOf(rs), UnfavorableOf(rs), GlobalBlock(rs)))
  }

  /**
   * In any frame, every occurrence of a record scored exactly 45 is binned as "<45" and every
   * occurrence of one scored exactly 55 as neutral, so the bin's count includes them; yet the
   * record is in neither the `favorable` nor the `unfavorable` block.
   */
  lemma BoundaryScores(rs: seq<Record>, r: Record)
    requires r in rs && (r.snapshot.score == 45.0 || r.snapshot.score == 55.0)
    ensures var c := if r.snapshot.score == 45.0 then Unfavorable else Neutral;
      && multiset(Select(rs, InCategory(c)))[r] == multiset(rs)[r]
      && AnalyzeResults(rs).value.byCategory[c].count >= 1
      && r !in Select(rs, IsFavorable) && r !in Select(rs, IsUnfavorable)
  {
    var c := if r.snapshot.score == 45.0 then Unfavorable else Neutral;
    SelectCounts(rs, InCategory(c));
    assert r in Select(rs, InCategory(c));
  }

  /** `analyze_results` in backtest.py: nothing for an empty frame, else the frame with its categories. */
  function LegacyAnalyze(rs: seq<Record>): (r: Option<seq<Categorised>>)
    ensures r.None? <==> rs == []
    ensures r.Some? ==> |r.value| == |rs|
    ensures r.Some? ==> forall k :: 0 <= k < |rs| ==>
      r.value[k].record == rs[k] && r.value[k].category == CategoryOf(rs[k].snapshot.score)
  {
    if rs == [] then None else Some(Categorise(rs))
  }
}
