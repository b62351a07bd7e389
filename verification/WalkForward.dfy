/**
 * The walk-forward loop of `BacktestEngine.run_backtest` (core/backtest.py) and of
 * `backtest_ticker` (backtest.py): from the first row at or after the start date, every
 * `interval`-th row is scored, and a record is emitted when a score exists and the row 30
 * rows later exists too, carrying the 30-row forward return.
 */
module WalkForward {
  import opened Wrappers
  import opened Numeric
  import opened Scoring
  import opened ConfigValues

  /** Rows between a signal and the close its forward return is measured at. */
  const HORIZON: nat := 30

  /** The stride `backtest_ticker` uses and `run_backtest` defaults to. */
  const WEEKLY: nat := 7

  /** A point-in-time scorer: the frame and the index of the scoring date. */
  type Scorer = (Series, nat) -> Option<Snapshot>

  /**
   * What the daily download hands over: how many rows it returned, and the rows left after
   * `dropna` (a row with a missing field is dropped).
   */
  datatype Download = Download(rawRows: nat, clean: Series)

  /** One row of the results frame: the scorer's snapshot and `return_30d`. */
  datatype Record = Record(snapshot: Snapshot, return30: real)

  /** `df.index.searchsorted(start)`: the first index whose timestamp is at or after `t`. */
  function FirstAtOrAfter(rows: Series, t: int): (idx: nat)
    ensures idx <= |rows|
    ensures forall j :: 0 <= j < idx ==> rows[j].time < t
    ensures forall j :: idx <= j < |rows| ==> rows[j].time >= t
  {
    if rows == [] || rows[0].time >= t then 0
    else
      var tail: Series := rows[1..];
      1 + FirstAtOrAfter(tail, t)
  }

  /** `range(start, n, step)`. */
  function Visits(start: nat, n: nat, step: nat): (v: seq<nat>)
    requires step > 0
    decreases n - start
  {
    if start >= n then [] else [start] + Visits(start + step, n, step)
  }

  /** The visited indices are exactly those from `start` below `n` on the stride. */
  lemma {:induction false} VisitsExactly(start: nat, n: nat, step: nat, x: nat)
    requires step > 0
    ensures x in Visits(start, n, step) <==> start <= x < n && (x - start) % step == 0
    decreases n - start
  {
    if start < n {
      VisitsExactly(start + step, n, step, x);
      if x >= start + step {
        StrideShift(x - start - step, step);
      } else if start < x {
        assert 0 < x - start < step;
      }
    }
  }

  lemma StrideShift(a: nat, step: nat)
    requires step > 0
    ensures (a + step) % step == a % step
  {
    var q, r := a / step, a % step;
    assert a == step * q + r;
    assert a + step == step * (q + 1) + r;
    DivModUnique(a + step, step, q + 1, r);
  }

  /** Euclidean division has one quotient and remainder. */
  lemma DivModUnique(x: int, d: int, q: int, r: int)
    requires d > 0 && 0 <= r < d && x == d * q + r
    ensures x % d == r
  {
    var q', r' := x / d, x % d;
    assert d * (q - q') == r' - r;
    if q - q' >= 1 {
      MulAtLeast(d, q - q');
    } else if q' - q >= 1 {
      MulAtLeast(d, q' - q);
    }
  }

  lemma MulAtLeast(d: int, m: int)
    requires d > 0 && m >= 1
    ensures d * m >= d
  {
  }

  /** The row at `i` yields a record: it is scored and its 30-row forward close exists. */
  predicate Emits(rows: Series, i: nat, scorer: Scorer)
  {
    i + HORIZON < |rows| && scorer(rows, i).Some?
  }

  /** `((close[i+30] - close[i]) / close[i]) * 100`, rounded to 2 decimals. */
  function Return30(rows: Series, i: nat): real
    requires i + HORIZON < |rows|
  {
    Round((rows[i + HORIZON].close - rows[i].close) / rows[i].close * 100.0, TWO_DECIMALS)
  }

  function RecordAt(rows: Series, i: nat, scorer: Scorer): Record
    requires Emits(rows, i, scorer)
  {
    Record(scorer(rows, i).value, Return30(rows, i))
  }

  /** The indices the loop emits records for, in visiting order. */
  function EmittedIndices(rows: Series, start: nat, step: nat, scorer: Scorer): (idx: seq<nat>)
    requires step > 0
    ensures forall k :: 0 <= k < |idx| ==> Emits(rows, idx[k], scorer)
    decreases |rows| - start
  {
    if start >= |rows| then []
    else
      var rest := EmittedIndices(rows, start + step, step, scorer);
      (if Emits(rows, start, scorer) then [start] else []) + rest
  }

  /** EmittedIndices on a non-empty range: the head, if it emits, then the rest. */
  lemma EmittedUnfold(rows: Series, start: nat, step: nat, scorer: Scorer)
    requires step > 0 && start < |rows|
    ensures EmittedIndices(rows, start, step, scorer) ==
      (if Emits(rows, start, scorer) then [start] else []) + EmittedIndices(rows, start + step, step, scorer)
    ensures Visits(start, |rows|, step) == [start] + Visits(start + step, |rows|, step)
  {
  }

  /** Every emitted index is a visited one, and there are at most as many. */
  lemma {:induction false} EmittedAreVisited(rows: Series, start: nat, step: nat, scorer: Scorer)
    requires step > 0
    ensures var idx := EmittedIndices(rows, start, step, scorer);
      && |idx| <= |Visits(start, |rows|, step)|
      && forall k :: 0 <= k < |idx| ==> idx[k] in Visits(start, |rows|, step)
    decreases |rows| - start
  {
    if start < |rows| {
      EmittedAreVisited(rows, start + step, step, scorer);
      EmittedUnfold(rows, start, step, scorer);
      var rest := EmittedIndices(rows, start + step, step, scorer);
      var idx := EmittedIndices(rows, start, step, scorer);
      forall k | 0 <= k < |idx|
        ensures idx[k] in Visits(start, |rows|, step)
      {
        if idx[k] != start {
          assert idx[k] in rest;
        }
      }
    }
  }

  /** Every visited index with a score and a 30-row forward close is emitted. */
  lemma {:induction false} EmittedComplete(rows: Series, start: nat, step: nat, scorer: Scorer)
    requires step > 0
    ensures forall x :: x in Visits(start, |rows|, step) && Emits(rows, x, scorer) ==>
      x in EmittedIndices(rows, start, step, scorer)
    decreases |rows| - start
  {
    if start < |rows| {
      EmittedComplete(rows, start + step, step, scorer);
      EmittedUnfold(rows, start, step, scorer);
    }
  }

  /** The emitted indices start at `start` or later and strictly increase. */
  lemma {:induction false} EmittedIncreasing(rows: Series, start: nat, step: nat, scorer: Scorer)
    requires step > 0
    ensures var idx := EmittedIndices(rows, start, step, scorer);
      && (forall k :: 0 <= k < |idx| ==> start <= idx[k])
      && (forall k, l :: 0 <= k < l < |idx| ==> idx[k] < idx[l])
    decreases |rows| - start
  {
    if start < |rows| {
      EmittedIncreasing(rows, start + step, step, scorer);
      EmittedUnfold(rows, start, step, scorer);
      var rest := EmittedIndices(rows, start + step, step, scorer);
      var head: seq<nat> := if Emits(rows, start, scorer) then [start] else [];
      var idx := head + rest;
      forall k | 0 <= k < |idx|
        ensures start <= idx[k]
      {
        if k >= |head| {
          assert idx[k] == rest[k - |head|];
        }
      }
      forall k, l | 0 <= k < l < |idx|
        ensures idx[k] < idx[l]
      {
        assert idx[l] == rest[l - |head|];
        if k >= |head| {
          assert idx[k] == rest[k - |head|];
        }
      }
    }
  }

  /** The records of the given indices. */
  function RecordsAt(rows: Series, idx: seq<nat>, scorer: Scorer): (rs: seq<Record>)
    requires forall k :: 0 <= k < |idx| ==> Emits(rows, idx[k], scorer)
    ensures |rs| == |idx|
    ensures forall k :: 0 <= k < |idx| ==> rs[k] == RecordAt(rows, idx[k], scorer)
  {
    seq(|idx|, k requires 0 <= k < |idx| => RecordAt(rows, idx[k], scorer))
  }

  /** The results frame of a walk from index `start`: the record of `start`, if any, then the rest. */
  function Walk(rows: Series, start: nat, step: nat, scorer: Scorer): seq<Record>
    requires step > 0
    decreases |rows| - start
  {
    if start >= |rows| then []
    else (if Emits(rows, start, scorer) then [RecordAt(rows, start, scorer)] else []) + Walk(rows, start + step, step, scorer)
  }

  /** The walk is the records of exactly the emitted indices, in visiting order. */
  lemma {:induction false} WalkIsEmitted(rows: Series, start: nat, step: nat, scorer: Scorer)
    requires step > 0
    ensures Walk(rows, start, step, scorer) == RecordsAt(rows, EmittedIndices(rows, start, step, scorer), scorer)
    decreases |rows| - start
  {
    if start < |rows| {
      WalkIsEmitted(rows, start + step, step, scorer);
      EmittedUnfold(rows, start, step, scorer);
      var rest := EmittedIndices(rows, start + step, step, scorer);
      var head: seq<nat> := if Emits(rows, start, scorer) then [start] else [];
      RecordsAtAppend(rows, head, rest, scorer);
      assert RecordsAt(rows, head, scorer) == if Emits(rows, start, scorer) then [RecordAt(rows, start, scorer)] else [];
    }
  }

  /** The records of two runs of indices, one after the other. */
  lemma RecordsAtAppend(rows: Series, a: seq<nat>, b: seq<nat>, scorer: Scorer)
    requires forall k :: 0 <= k < |a| ==> Emits(rows, a[k], scorer)
    requires forall k :: 0 <= k < |b| ==> Emits(rows, b[k], scorer)
    ensures RecordsAt(rows, a + b, scorer) == RecordsAt(rows, a, scorer) + RecordsAt(rows, b, scorer)
  {
    var l, r := RecordsAt(rows, a + b, scorer), RecordsAt(rows, a, scorer) + RecordsAt(rows, b, scorer);
    assert |l| == |r|;
    forall k | 0 <= k < |l|
      ensures l[k] == r[k]
    {
      if k < |a| {
        assert (a + b)[k] == a[k];
      } else {
        assert (a + b)[k] == b[k - |a|];
      }
    }
  }

  /**
   * The backtest of one ticker: None when the download fails or returns no rows; otherwise
   * the walk over the rows `dropna` kept, from the first at or after `startTime` (an empty
   * frame when `dropna` kept none). A negative stride visits nothing.
   */
  function Backtest(fetched: Option<Download>, scorer: Scorer, startTime: int, interval: int): (r: Option<seq<Record>>)
    requires interval != 0
    ensures r.None? <==> fetched.None? || fetched.value.rawRows == 0
    ensures r.Some? && fetched.value.clean == [] ==> r.value == []
  {
    match fetched
    case None => None
    case Some(d) =>
      if d.rawRows == 0 then None
      else if interval < 0 then Some([])
      else Some(Walk(d.clean, FirstAtOrAfter(d.clean, startTime), interval, scorer))
  }

  /** `BacktestEngine.run_backtest`: the download checks, then the strided loop. */
  method RunBacktest(ticker: string, fetch: string -> Option<Download>, scorer: Scorer,
                     startTime: int, interval: int) returns (r: Option<seq<Record>>)
    requires interval != 0
    ensures r == Backtest(fetch(ticker), scorer, startTime, interval)
  {
    var fetched := fetch(ticker);
    if fetched.None? {
      return None;
    }
    var d := fetched.value;
    if d.rawRows == 0 {
      return None;
    }
    var rows := d.clean;
    var start := FirstAtOrAfter(rows, startTime);
    if interval < 0 {
      return Some([]);
    }
    var results := WalkLoop(rows, start, interval, scorer);
    r := Some(results);
  }

  /** The loop of `run_backtest`: score every visited row and keep those with a forward close. */
  method WalkLoop(rows: Series, start: nat, step: nat, scorer: Scorer) returns (results: seq<Record>)
    requires step > 0
    ensures results == Walk(rows, start, step, scorer)
  {
    results := [];
    var i := start;
    while i < |rows|
      invariant results + Walk(rows, i, step, scorer) == Walk(rows, start, step, scorer)
      decreases |rows| - i
    {
      WalkStep(rows, start, i, step, scorer, results);
      var scored := scorer(rows, i);
      if scored.Some? && i + HORIZON < |rows| {
        results := results + [Record(scored.value, Return30(rows, i))];
      }
      i := i + step;
    }
    assert results + [] == results;
  }

  /** One visit of the walk moves the current row's record, if any, into the results. */
  lemma WalkStep(rows: Series, start: nat, i: nat, step: nat, scorer: Scorer, results: seq<Record>)
    requires step > 0 && i < |rows|
    requires results + Walk(rows, i, step, scorer) == Walk(rows, start, step, scorer)
    ensures (if Emits(rows, i, scorer) then results + [RecordAt(rows, i, scorer)] else results)
              + Walk(rows, i + step, step, scorer) == Walk(rows, start, step, scorer)
  {
    var rest := Walk(rows, i + step, step, scorer);
    if Emits(rows, i, scorer) {
      ConcatAssoc(results, [RecordAt(rows, i, scorer)], rest);
    }
  }

  /** `compute_score_at_date` with the configuration's parameters, as `backtest_ticker` calls it. */
  function PointInTime(p: ScoreParams, ind: Indicators, norm: Normalisers): Scorer
  {
    (rows: Series, i: nat) => ScoreAt(rows, i, p, ind, norm)
  }

  /** How `backtest_ticker` (backtest.py) ends. */
  datatype TickerRun =
    | NoData                      // the download returned no rows: `None`
    | Raised                      // an exception escaped: from the download, or a configuration lookup
    | Frame(records: seq<Record>) // the results frame

  /**
   * Some row visited from index `i` on the stride has the 200 rows of history after which
   * `compute_score_at_date` reads the configuration.
   */
  predicate ReachesHistory(rows: Series, i: nat, step: nat)
    requires step > 0
    decreases |rows| - i
  {
    i < |rows| && (i + 1 >= MIN_HISTORY || ReachesHistory(rows, i + step, step))
  }

  /** The history is reached exactly when some visited index sees at least 200 rows. */
  lemma {:induction false} ReachesHistoryVisits(rows: Series, i: nat, step: nat)
    requires step > 0
    ensures ReachesHistory(rows, i, step) <==> exists j :: j in Visits(i, |rows|, step) && j + 1 >= MIN_HISTORY
    decreases |rows| - i
  {
    if i < |rows| {
      ReachesHistoryVisits(rows, i + step, step);
      var later := Visits(i + step, |rows|, step);
      assert Visits(i, |rows|, step) == [i] + later;
      assert forall j :: j in Visits(i, |rows|, step) <==> j == i || j in later;
      if i + 1 >= MIN_HISTORY {
        assert i in Visits(i, |rows|, step);
      } else {
        assert ReachesHistory(rows, i, step) == ReachesHistory(rows, i + step, step);
      }
    }
  }

  /**
   * Visited rows before the history is reached are never scored, so with a configuration
   * missing an entry the loop raises exactly when it reaches the history.
   */
  lemma {:induction false} WalkBeforeHistory(rows: Series, i: nat, p: ScoreParams, ind: Indicators, norm: Normalisers)
    requires !ReachesHistory(rows, i, WEEKLY)
    ensures Walk(rows, i, WEEKLY, PointInTime(p, ind, norm)) == []
    decreases |rows| - i
  {
    if i < |rows| {
      assert Seen(rows, i) == i + 1;
      WalkBeforeHistory(rows, i + WEEKLY, p, ind, norm);
    }
  }

  /**
   * `backtest_ticker` on the raw YAML dictionary `cfg`: a failed download raises, an empty one
   * gives None; otherwise the weekly walk. `compute_score_at_date` reads the caps and weights
   * only once it has 200 rows, so a configuration missing one of them raises at the first
   * visited row with that much history, and gives an empty frame when there is none.
   */
  function TickerBacktest(fetched: Option<Download>, cfg: Config, ind: Indicators, norm: Normalisers,
                          startTime: int): (r: TickerRun)
    ensures r == NoData <==> fetched.Some? && fetched.value.rawRows == 0
    ensures r == Raised <==>
      || fetched.None?
      || (&& fetched.value.rawRows > 0
          && ParamsFromConfig(cfg).None?
          && ReachesHistory(fetched.value.clean, FirstAtOrAfter(fetched.value.clean, startTime), WEEKLY))
    ensures r.Frame? && ParamsFromConfig(cfg).Some? ==>
      Some(r.records) == Backtest(fetched, PointInTime(ParamsFromConfig(cfg).value, ind, norm), startTime, WEEKLY)
    ensures r.Frame? && ParamsFromConfig(cfg).None? ==> r.records == []
  {
    match fetched
    case None => Raised
    case Some(d) =>
      if d.rawRows == 0 then NoData
      else
        var start := FirstAtOrAfter(d.clean, startTime);
        match ParamsFromConfig(cfg)
        case Some(p) => Frame(Walk(d.clean, start, WEEKLY, PointInTime(p, ind, norm)))
        case None => if ReachesHistory(d.clean, start, WEEKLY) then Raised else Frame([])
  }

  /** `backtest_ticker` (backtest.py): the download checks, then the weekly loop. */
  method BacktestTicker(ticker: string, fetch: string -> Option<Download>, cfg: Config,
                        ind: Indicators, norm: Normalisers, startTime: int) returns (r: TickerRun)
    ensures r == TickerBacktest(fetch(ticker), cfg, ind, norm, startTime)
  {
    var fetched := fetch(ticker);
    if fetched.None? {
      return Raised;
    }
    var d := fetched.value;
    if d.rawRows == 0 {
      return NoData;
    }
    var rows := d.clean;
    var start := FirstAtOrAfter(rows, startTime);
    var params := ParamsFromConfig(cfg);
    if params.Some? {
      var results := WalkLoop(rows, start, WEEKLY, PointInTime(params.value, ind, norm));
      return Frame(results);
    }
    // Rows with less history score nothing; the first one with enough raises on the lookup.
    var i := start;
    while i < |rows| && i + 1 < MIN_HISTORY
      invariant ReachesHistory(rows, i, WEEKLY) == ReachesHistory(rows, start, WEEKLY)
      decreases |rows| - i
    {
      i := i + WEEKLY;
    }
    r := if i < |rows| then Raised else Frame([]);
  }

  /**
   * In `backtest_ticker`'s results the dates strictly increase, every date is at or after the
   * start date, and every score is a percentage when the normalisers map into [0, 1] and the
   * weights are convex.
   */
  lemma WeeklyRecordsOrdered(rows: Series, p: ScoreParams, ind: Indicators, norm: Normalisers, startTime: int)
    ensures var rs := Walk(rows, FirstAtOrAfter(rows, startTime), WEEKLY, PointInTime(p, ind, norm));
      && (forall k, l :: 0 <= k < l < |rs| ==> rs[k].snapshot.date < rs[l].snapshot.date)
      && (forall k :: 0 <= k < |rs| ==> rs[k].snapshot.date >= startTime)
      && (InUnitRange(norm) && ConvexWeights(p.weights) ==>
            forall k :: 0 <= k < |rs| ==> 0.0 <= rs[k].snapshot.score <= 100.0)
  {
    var scorer := PointInTime(p, ind, norm);
    var start := FirstAtOrAfter(rows, startTime);
    var idx := EmittedIndices(rows, start, WEEKLY, scorer);
    var rs := Walk(rows, start, WEEKLY, scorer);
    WalkIsEmitted(rows, start, WEEKLY, scorer);
    EmittedIncreasing(rows, start, WEEKLY, scorer);
    forall k | 0 <= k < |idx|
      ensures rs[k].snapshot.date == rows[idx[k]].time
      ensures InUnitRange(norm) && ConvexWeights(p.weights) ==> 0.0 <= rs[k].snapshot.score <= 100.0
    {
      assert Seen(rows, idx[k]) == idx[k] + 1;
      if InUnitRange(norm) && ConvexWeights(p.weights) {
        ScoreInRange(rows, idx[k], p, ind, norm);
      }
    }
  }
}
