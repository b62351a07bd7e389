/**
 * `BacktestEngine.run_multi_ticker_backtest` (core/backtest.py): one weekly backtest per
 * ticker; every non-empty results frame gets a `ticker` column (and, because the analysis
 * adds it to the same frame, a `score_category` column), is analysed on its own, and is
 * concatenated into the combined frame, which is analysed last under the key `_global`.
 */
module MultiTicker {
  import opened Wrappers
  import opened Scoring
  import opened WalkForward
  import opened Analysis

  /** The key of the combined frame's analysis. */
  const GLOBAL_KEY: string := "_global"

  /** A row of the combined frame: the record, its `score_category` and its `ticker`. */
  datatype TaggedRow = TaggedRow(record: Record, category: Option<Category>, ticker: string)

  /** A results frame with its `ticker` and `score_category` columns filled in. */
  function Tag(rs: seq<Record>, ticker: string): (out: seq<TaggedRow>)
    ensures |out| == |rs|
    ensures forall k :: 0 <= k < |rs| ==>
      out[k] == TaggedRow(rs[k], CategoryOf(rs[k].snapshot.score), ticker)
  {
    seq(|rs|, k requires 0 <= k < |rs| => TaggedRow(rs[k], CategoryOf(rs[k].snapshot.score), ticker))
  }

  /** The records of the combined frame, for its analysis. */
  function RecordsOf(rows: seq<TaggedRow>): (rs: seq<Record>)
    ensures |rs| == |rows|
    ensures forall k :: 0 <= k < |rows| ==> rs[k] == rows[k].record
  {
    seq(|rows|, k requires 0 <= k < |rows| => rows[k].record)
  }

  /** What `run_backtest` returns for one ticker with the default weekly stride. */
  function Outcome(fetch: string -> Option<Download>, scorer: Scorer, startTime: int, ticker: string): Option<seq<Record>>
  {
    Backtest(fetch(ticker), scorer, startTime, WEEKLY)
  }

  /** `results is not None and not results.empty`. */
  predicate Produced(o: Option<seq<Record>>)
  {
    o.Some? && o.value != []
  }

  /** The combined frame after the given tickers, in ticker order. */
  function Combined(tickers: seq<string>, fetch: string -> Option<Download>, scorer: Scorer, startTime: int): seq<TaggedRow>
  {
    if tickers == [] then []
    else
      var last := tickers[|tickers| - 1];
      var o := Outcome(fetch, scorer, startTime, last);
      Combined(tickers[..|tickers| - 1], fetch, scorer, startTime) + (if Produced(o) then Tag(o.value, last) else [])
  }

  /** The per-ticker analyses after the given tickers; a repeated ticker overwrites its entry. */
  function PerTicker(tickers: seq<string>, fetch: string -> Option<Download>, scorer: Scorer, startTime: int): map<string, Report>
  {
    if tickers == [] then map[]
    else
      var last := tickers[|tickers| - 1];
      var o := Outcome(fetch, scorer, startTime, last);
      var m := PerTicker(tickers[..|tickers| - 1], fetch, scorer, startTime);
      if Produced(o) then m[last := AnalyzeResults(o.value).value] else m
  }

  /**
   * `run_multi_ticker_backtest`: None and no analyses when no ticker produced a row; otherwise
   * the combined frame and the per-ticker analyses with the combined analysis under `_global`.
   */
  method RunMultiTickerBacktest(tickers: seq<string>, fetch: string -> Option<Download>, scorer: Scorer, startTime: int)
    returns (combined: Option<seq<TaggedRow>>, analyses: map<string, Report>)
    ensures combined.None? <==> forall k :: 0 <= k < |tickers| ==> !Produced(Outcome(fetch, scorer, startTime, tickers[k]))
    ensures combined.None? ==> analyses == map[]
    ensures combined.Some? ==>
      && combined.value == Combined(tickers, fetch, scorer, startTime)
      && combined.value != []
      && analyses == PerTicker(tickers, fetch, scorer, startTime)[GLOBAL_KEY := AnalyzeResults(RecordsOf(combined.value)).value]
  {
    var all, perTicker := CollectResults(tickers, fetch, scorer, startTime);
    CombinedEmptyIff(tickers, fetch, scorer, startTime);
    if all != [] {
      var global := AnalyzeResults(RecordsOf(all)).value;
      analyses := perTicker[GLOBAL_KEY := global];
      combined := Some(all);
    } else {
      combined := None;
      analyses := map[];
    }
  }

  /** The loop over the tickers: tag, collect and analyse every non-empty results frame. */
  method CollectResults(tickers: seq<string>, fetch: string -> Option<Download>, scorer: Scorer, startTime: int)
    returns (all: seq<TaggedRow>, perTicker: map<string, Report>)
    ensures all == Combined(tickers, fetch, scorer, startTime)
    ensures perTicker == PerTicker(tickers, fetch, scorer, startTime)
  {
    all, perTicker := [], map[];
    var i := 0;
    while i < |tickers|
      invariant 0 <= i <= |tickers|
      invariant all == Combined(tickers[..i], fetch, scorer, startTime)
      invariant perTicker == PerTicker(tickers[..i], fetch, scorer, startTime)
    {
      CombinedSnoc(tickers, i, fetch, scorer, startTime);
      PerTickerSnoc(tickers, i, fetch, scorer, startTime);
      var results := RunBacktest(tickers[i], fetch, scorer, startTime, WEEKLY);
      if results.Some? && results.value != [] {
        all := all + Tag(results.value, tickers[i]);
        perTicker := perTicker[tickers[i] := AnalyzeResults(results.value).value];
      }
      i := i + 1;
    }
    assert tickers[..i] == tickers;
  }

  /** The combined frame is empty exactly when no ticker produced a row. */
  lemma {:induction false} CombinedEmptyIff(tickers: seq<string>, fetch: string -> Option<Download>, scorer: Scorer, startTime: int)
    ensures Combined(tickers, fetch, scorer, startTime) == [] <==>
      forall k :: 0 <= k < |tickers| ==> !Produced(Outcome(fetch, scorer, startTime, tickers[k]))
  {
    if tickers != [] {
      var init := tickers[..|tickers| - 1];
      CombinedEmptyIff(init, fetch, scorer, startTime);
      assert forall k :: 0 <= k < |init| ==> init[k] == tickers[k];
    }
  }

  /** A row of the combined frame that one of `tickers` contributed, with its category. */
  predicate FromTicker(row: TaggedRow, tickers: seq<string>, fetch: string -> Option<Download>, scorer: Scorer, startTime: int)
  {
    var o := Outcome(fetch, scorer, startTime, row.ticker);
    && row.ticker in tickers
    && Produced(o)
    && row.record in o.value
    && row.category == CategoryOf(row.record.snapshot.score)
  }

  /**
   * Every row of the combined frame comes from one of the tickers, which produced rows, and is
   * one of that ticker's records with its category.
   */
  lemma {:induction false} CombinedProvenance(tickers: seq<string>, fetch: string -> Option<Download>, scorer: Scorer, startTime: int)
    ensures forall row :: row in Combined(tickers, fetch, scorer, startTime) ==>
      FromTicker(row, tickers, fetch, scorer, startTime)
  {
    if tickers != [] {
      var init := tickers[..|tickers| - 1];
      var last := tickers[|tickers| - 1];
      CombinedProvenance(init, fetch, scorer, startTime);
      var front := Combined(init, fetch, scorer, startTime);
      var o := Outcome(fetch, scorer, startTime, last);
      var back := if Produced(o) then Tag(o.value, last) else [];
      assert Combined(tickers, fetch, scorer, startTime) == front + back;
      forall row | row in front + back
        ensures FromTicker(row, tickers, fetch, scorer, startTime)
      {
        if row in front {
          assert FromTicker(row, init, fetch, scorer, startTime);
          assert row.ticker in init;
          assert forall t :: t in init ==> t in tickers;
        } else {
          var j :| 0 <= j < |back| && back[j] == row;
          assert o.value[j] in o.value;
        }
      }
    }
  }

  /** One more ticker extends the combined frame with that ticker's tagged rows, if any. */
  lemma CombinedSnoc(tickers: seq<string>, i: nat, fetch: string -> Option<Download>, scorer: Scorer, startTime: int)
    requires i < |tickers|
    ensures var o := Outcome(fetch, scorer, startTime, tickers[i]);
      Combined(tickers[..i + 1], fetch, scorer, startTime) ==
        Combined(tickers[..i], fetch, scorer, startTime) + (if Produced(o) then Tag(o.value, tickers[i]) else [])
  {
    assert tickers[..i + 1][..i] == tickers[..i];
  }

  /** One more ticker that produced rows sets (or overwrites) its own analysis. */
  lemma PerTickerSnoc(tickers: seq<string>, i: nat, fetch: string -> Option<Download>, scorer: Scorer, startTime: int)
    requires i < |tickers|
    ensures var o := Outcome(fetch, scorer, startTime, tickers[i]);
      PerTicker(tickers[..i + 1], fetch, scorer, startTime) ==
        var m := PerTicker(tickers[..i], fetch, scorer, startTime);
        if Produced(o) then m[tickers[i] := AnalyzeResults(o.value).value] else m
  {
    assert tickers[..i + 1][..i] == tickers[..i];
  }

  /** The combined frame holds every row of every ticker that produced rows, counted per occurrence. */
  lemma {:induction false} CombinedLength(tickers: seq<string>, fetch: string -> Option<Download>, scorer: Scorer, startTime: int)
    ensures |Combined(tickers, fetch, scorer, startTime)| == TotalRows(tickers, fetch, scorer, startTime)
  {
    if tickers != [] {
      CombinedLength(tickers[..|tickers| - 1], fetch, scorer, startTime);
    }
  }

  /** The number of rows the given tickers' backtests return, summed over the list. */
  function TotalRows(tickers: seq<string>, fetch: string -> Option<Download>, scorer: Scorer, startTime: int): nat
  {
    if tickers == [] then 0
    else
      var o := Outcome(fetch, scorer, startTime, tickers[|tickers| - 1]);
      TotalRows(tickers[..|tickers| - 1], fetch, scorer, startTime) + (if o.Some? then |o.value| else 0)
  }

  /**
   * The per-ticker analyses depend only on the set of tickers that produced rows: each such
   * ticker is analysed on its own results, whatever the order or repetitions of the list.
   */
  lemma {:induction false} PerTickerByTicker(tickers: seq<string>, fetch: string -> Option<Download>, scorer: Scorer, startTime: int)
    ensures var m := PerTicker(tickers, fetch, scorer, startTime);
      && (forall t :: t in m <==> t in tickers && Produced(Outcome(fetch, scorer, startTime, t)))
      && (forall t :: t in m ==> m[t] == AnalyzeResults(Outcome(fetch, scorer, startTime, t).value).value)
  {
    if tickers != [] {
      var init := tickers[..|tickers| - 1];
      PerTickerByTicker(init, fetch, scorer, startTime);
      assert forall t :: t in tickers <==> t in init || t == tickers[|tickers| - 1];
    }
  }
}
