# Daily-score bot: configuration store, point-in-time scorer and walk-forward backtest

This Dafny project models the deterministic core of a stock-scoring bot. It has three parts.

- **`ConfigManager` (core/config.py).** It resolves the bot's configuration in layers:
  - the YAML input;
  - "set if absent" defaults for the caps and the six composite weights;
  - key/value overrides from the store, in table order, where each value is JSON-decoded and a dotted key is merged into nested dictionaries;
  - the custom formulas and their weights;
  - the enabled ticker list, which replaces the YAML list entirely.

  It also runs the small relational store behind that resolution. The store has five tables: config, formulas, tickers, weight_profiles and profile_weights. It supports upserts, deletes, ticker toggling, weight profiles, profile activation and profile saving.
- **`compute_score_at_date` (backtest.py).**
  - It returns nothing below 200 rows of history.
  - It reads only the rows up to the scoring date.
  - It computes rolling means, a 90-row drawdown and a 30-row momentum, substituting neutral values where an indicator is missing.
  - It forms `round(100 × Σ weight × sub-score, 1)`.
- **The walk-forward backtest (core/backtest.py, duplicated in backtest.py).**
  - It starts at the first row at or after the start date, visits every `interval`-th row, and emits a record when a score exists and the row 30 rows later exists too. The record carries the rounded 30-row forward return.
  - The analysis bins the scores with right-closed bins and filters them with strict `> 55` / `< 45` comparisons. It computes counts, means, extremes and success rates.
  - The multi-ticker driver concatenates the per-ticker frames and analyses them per ticker and globally.

The modules follow the program's structure:

| module | file | what it holds |
|---|---|---|
| `Wrappers` | Wrappers.dfy | `Option` |
| `Numeric` | Numeric.dfy | Python's `round` (half to even) on exact reals; sum, mean, max, min and the success-rate percentage of a column |
| `ConfigValues` | ConfigValues.dfy | the configuration value tree; `key.split(".")`; the nested lookup walk and the nested override walk |
| `ConfigResolve` | ConfigResolve.dfy | the layers of `get_config` as functions of the YAML input and the table contents |
| `ConfigStore` | ConfigStore.dfy | `class ConfigManager`: the five tables as fields and every store operation as a method |
| `Scoring` | Scoring.dfy | `compute_score_at_date` |
| `WalkForward` | WalkForward.dfy | `run_backtest` and `backtest_ticker` (the strided loop) |
| `Analysis` | Analysis.dfy | `analyze_results` in both files |
| `MultiTicker` | MultiTicker.dfy | `run_multi_ticker_backtest` |

Where the code's own labels or comments say one thing and its behaviour another, the model follows the behaviour:

- The score bins are those of `pd.cut` with its default right-closed intervals: (0, 45], (45, 55] and (55, 100] (core/backtest.py:95-99, backtest.py:119-123). The labels "Défavorable (<45)" and "Neutre (45-55)" suggest otherwise. So a score of exactly 45 is binned under the "<45" label yet is not in the `unfavorable` block (`score < 45`), and a score of 0 falls in no bin.
- Deleting a weight profile leaves its `profile_weights` rows in place. The table declares `ON DELETE CASCADE` (core/config.py:69) and the comment in `delete_weight_profile` (core/config.py:474) expects the rows to go, but SQLite foreign keys are never switched on.

`analyze_results` adds the `score_category` column to each per-ticker frame (core/backtest.py:95). These are the same frames that `run_multi_ticker_backtest` concatenates (core/backtest.py:166), so the combined frame carries that column too.

Modelling conventions:

- **Inputs instead of effects.** External effects become parameters:
  - the YAML file is an input dictionary;
  - the JSON codec is a pair of functions;
  - the price download is a function `fetch(ticker)` returning, unless the download raised, the number of rows downloaded and the rows `dropna` kept;
  - RSI, the 20-day volatility and the six `score_*` normalisers are function parameters.
- **Prices and series.** Prices are positive reals. A series has strictly increasing timestamps.
- **Errors.** Where the Python code raises, the model answers `None` (or `false` for `update_profile_info`, and `Raised` for `backtest_ticker`, which can also answer `None`).
- **Mutation.** State the source updates in place is held in the fields of `ConfigManager`, and the Python loops are `while` loops proved against the functions that specify them.

## Model

| member | source | states |
|---|---|---|
| Numeric.RoundHalfEven | backtest.py:67 | rounding to an integer moves the value by at most one half |
| Numeric.Round | core/backtest.py:74 | Python's `round(x, d)`, half to even on the last kept decimal |
| Numeric.RoundError | core/backtest.py:74 | rounding to `scale` decimals moves a value by at most half a unit of the last kept decimal |
| Numeric.RoundMonotone | core/backtest.py:109-113 | rounding preserves order, so the rounded min, mean and max stay ordered |
| Numeric.RoundWithin | core/backtest.py:111 | a value between two integers stays between them after rounding |
| Numeric.Max | core/backtest.py:112 | the column maximum is an element and bounds every element |
| Numeric.Min | core/backtest.py:113 | the column minimum is an element and is below every element |
| Numeric.CountPositive | core/backtest.py:111 | the number of positive returns is at most the number of rows |
| Numeric.CountPositiveExtremes | core/backtest.py:111 | the count equals the number of rows exactly when every return is positive, and is 0 exactly when none is |
| Numeric.SumBounds | core/backtest.py:109 | a column bounded by lo and hi has a sum between n·lo and n·hi |
| Numeric.MeanBetween | core/backtest.py:109-113 | the mean of a non-empty column lies between its minimum and its maximum |
| Numeric.PercentPositive | core/backtest.py:111 | the success rate is a percentage in [0, 100] |
| ConfigValues.Split | core/config.py:149 | `key.split(".")` has at least one piece |
| ConfigValues.Get | core/config.py:207-215 | a lookup of a non-empty path succeeds only through a dictionary holding its first piece |
| ConfigValues.Lookup | core/config.py:209-215 | the lookup loop of `get_config_value` finds exactly what the path walk Get finds |
| ConfigValues.SetPath | core/config.py:150-155 | the override walk: descend, creating missing dictionaries, then assign the last piece |
| ConfigValues.SetPathKeys | core/config.py:150-155 | a successful walk adds at most the path's first piece at the top level and removes no key |
| ConfigValues.JoinSplit | core/config.py:149 | joining the pieces of `key.split(".")` with dots gives the key back |
| ConfigValues.SplitJoin | core/config.py:149 | splitting dot-free pieces joined with dots gives the pieces back |
| ConfigValues.SplitPiecesHaveNoDot | core/config.py:149 | no piece of a split contains a dot |
| ConfigValues.SplitSingle | core/config.py:148 | a key splits into itself alone exactly when it has no dot |
| ConfigValues.SplitDotted | core/config.py:149 | a dot-free head followed by a dot splits into the head then the split of the rest |
| ConfigValues.SetPathFailsIffBlocked | core/config.py:150-155 | the override walk raises exactly when an existing non-dictionary lies on the path before the last piece |
| ConfigValues.SetPathReadBack | core/config.py:150-155 | after the override walk, the value is found at the full dotted path, with the missing intermediate dictionaries created |
| ConfigValues.SetPathKeepsSiblings | core/config.py:150-155 | the override walk leaves every path that branches off the assigned one unchanged, present or absent |
| ConfigValues.AssignPath | core/config.py:149-155 | the descent loop with its in-place assignment yields exactly the nested update of SetPath, raising in the same cases |
| ConfigValues.Descend | core/config.py:151-154 | one descent step fails exactly when the entry exists and is not a dictionary |
| ConfigResolve.WithDefaults | core/config.py:116-133 | YAML entries survive; each of the nine top-level defaults and the six weight defaults is filled in only where absent; a non-dictionary `weights` raises |
| ConfigResolve.ApplyOverride | core/config.py:143-160 | an undecodable value is stored raw under the literal key (dotted or not); a decoded dotted value lands at its nested path; the row raises exactly when the path is blocked |
| ConfigResolve.ApplyOverridesSnoc | core/config.py:141-160 | the override rows are applied in table order, a raising row ending the stage with what was built so far |
| ConfigResolve.Symbols | core/config.py:174-175 | the selected symbols are exactly those of the enabled rows (of all rows when not filtered), in table order |
| ConfigResolve.SymbolList | core/config.py:175 | the ticker list holds one string per symbol, in order |
| ConfigResolve.WithTables | core/config.py:162-177 | at least one enabled ticker replaces `tickers` wholesale, otherwise it is kept; a non-empty formulas table adds `formulas` and `formula_weights`; nothing else changes |
| ConfigResolve.OverrideLast | core/config.py:141-160 | a row stored last wins in the override stage: its text, when it decodes, is found at the key's path, and otherwise sits raw under the literal key |
| ConfigResolve.SetThenResolve | core/config.py:185-197 | after `set_config_value`, resolving finds the decoded stored text at the key's path, or the raw text under the literal key when it does not decode; a non-string value whose encoding decodes back to it comes back at its path |
| ConfigResolve.StoredText | core/config.py:191-192 | `set_config_value` stores a string as it is and JSON-encodes anything else |
| ConfigResolve.ApplyOverrides | core/config.py:141-160 | the override rows applied in table order, a raising row ending the stage; no row removes a key |
| ConfigResolve.Resolve | core/config.py:107-183 | `get_config` raises only on a non-dictionary `weights`; otherwise every YAML key, every top-level default and `weights` are present |
| ConfigStore.WithoutKey | core/config.py:194-197 | the replace half of INSERT OR REPLACE removes exactly the row with that key |
| ConfigStore.WithoutKeyKeepsOrder | core/config.py:194-197 | the other rows keep their table order: nothing changes when no row has the key, and with distinct keys exactly the row holding it is cut out |
| ConfigStore.WithoutKeyAt | core/config.py:194-197 | with distinct keys, deleting the key held at position i gives the rows before i followed by the rows after i |
| ConfigStore.WithoutKeyAppend | core/config.py:194-197 | deleting from two consecutive runs of rows deletes from each, keeping their order |
| ConfigStore.WithoutSymbol | core/config.py:291 | deleting a symbol removes exactly its row |
| ConfigStore.WithoutSymbolKeepsOrder | core/config.py:291 | the other tickers keep their table order: nothing changes when no row has the symbol, and with distinct symbols exactly its row is cut out |
| ConfigStore.WithoutSymbolAt | core/config.py:291 | with distinct symbols, deleting the symbol held at position i gives the rows before i followed by the rows after i |
| ConfigStore.WithoutSymbolAppend | core/config.py:291 | deleting from two consecutive runs of tickers deletes from each, keeping their order |
| ConfigStore.Toggled | core/config.py:301-303 | toggling changes only the enabled flag of the matching row and keeps the order |
| ConfigStore.Activate | core/config.py:401-409 | after activation exactly the given id is active (none if it does not exist); names and descriptions are kept |
| ConfigStore.Activated | core/config.py:418-423 | each formula named in the profile takes the saved weight; other formulas are unchanged; no formula is created |
| ConfigStore.CurrentWeights | core/config.py:482-483 | the collected weights are exactly the formulas' weights |
| ConfigStore.WeightsOf | core/config.py:458-464 | a profile's weights are exactly its `profile_weights` rows |
| ConfigStore.Replaced | core/config.py:433-441 | saving replaces the profile's weights by exactly the given map (not a merge) and leaves other profiles' rows unchanged |
| ConfigStore.SaveCurrentThenActivate | core/config.py:480-484 | activating the weights just saved from the formulas leaves every formula unchanged |
| ConfigStore.UpsertKeepsKeysDistinct | core/config.py:194-197 | INSERT OR REPLACE keeps `config.key` a key |
| ConfigStore.WithoutKeyDistinct | core/config.py:194-197 | deleting a row keeps the keys distinct |
| ConfigStore.UpsertKeepsSymbolsDistinct | core/config.py:278-281 | INSERT OR REPLACE keeps `tickers.symbol` a key |
| ConfigStore.WithoutSymbolDistinct | core/config.py:291 | deleting a ticker keeps the symbols distinct |
| ConfigStore.ConfigManager.constructor | core/config.py:16-75 | a fresh store has empty tables and satisfies the table invariants |
| ConfigStore.ConfigManager.GetConfig | core/config.py:107-183 | the loop-based resolution equals the layered resolution Resolve |
| ConfigStore.ConfigManager.ReadOverrides | core/config.py:141-160 | the override loop equals the override stage, stopping at the first raising row |
| ConfigStore.ConfigManager.ReadTables | core/config.py:162-177 | the table stages equal WithTables: formulas and weights only when there is a formula, the enabled tickers only when there is one |
| ConfigResolve.FormulaTextsEmpty | core/config.py:164-169 | the name-to-text dictionary is empty exactly when the formulas table is, so testing either decides whether the formulas are added |
| ConfigStore.ConfigManager.ReadFormulas | core/config.py:163-171 | the formulas loop builds exactly name to text and name to weight |
| ConfigStore.ConfigManager.ReadEnabledTickers | core/config.py:174-175 | the enabled symbols, in table order |
| ConfigStore.ConfigManager.GetConfigValue | core/config.py:202-217 | the value at the dotted path when every piece names a dictionary entry, otherwise `default`; a plain key is a one-piece path |
| ConfigStore.ConfigManager.SetConfigValue | core/config.py:185-200 | the row moves to the end with the value stored raw if a string and encoded otherwise; the other tables are unchanged |
| ConfigStore.ConfigManager.SetFormula | core/config.py:219-230 | the formula row is inserted or replaced; nothing else changes |
| ConfigStore.ConfigManager.SetFormulaWeight | core/config.py:250-261 | only an existing formula's weight changes; a missing formula is not created |
| ConfigStore.ConfigManager.DeleteFormula | core/config.py:263-271 | the formula row is removed; nothing else changes |
| ConfigStore.ConfigManager.AddTicker | core/config.py:273-284 | the ticker is re-inserted enabled at the end; nothing else changes |
| ConfigStore.ConfigManager.RemoveTicker | core/config.py:286-294 | the ticker row is removed; nothing else changes |
| ConfigStore.ConfigManager.ToggleTicker | core/config.py:296-306 | only the matching row's flag changes |
| ConfigStore.ConfigManager.GetTickers | core/config.py:308-326 | the (enabled) symbols when there are any, otherwise the YAML `tickers` entry or an empty list |
| ConfigStore.ConfigManager.CreateWeightProfile | core/config.py:330-344 | a name in use raises and changes nothing; otherwise a new inactive profile gets a fresh id that is never reused |
| ConfigStore.ConfigManager.GetActiveProfile | core/config.py:371-394 | a profile is returned exactly when one is active, and it is that active profile |
| ConfigStore.ConfigManager.SetActiveProfile | core/config.py:396-426 | only that profile is active afterwards; its saved weights are copied into the existing formulas; at most one profile stays active |
| ConfigStore.ConfigManager.SaveProfileWeights | core/config.py:428-451 | the profile's weights become exactly the given map; other profiles' weights are unchanged |
| ConfigStore.ConfigManager.GetProfileWeights | core/config.py:453-467 | exactly the rows of that profile |
| ConfigStore.ConfigManager.DeleteWeightProfile | core/config.py:469-478 | the profile row is removed and its weight rows stay |
| ConfigStore.ConfigManager.SaveCurrentWeightsToProfile | core/config.py:480-484 | the profile's weights become the formulas' current weights |
| ConfigStore.ConfigManager.SaveThenActivate | core/config.py:480-484 | saving the current weights to a profile and then activating it leaves all formulas unchanged |
| ConfigStore.ConfigManager.UpdateProfileInfo | core/config.py:486-506 | a new name carried by another profile raises and changes nothing; otherwise the given fields are updated; an unknown id changes nothing |
| Scoring.Closes | backtest.py:40 | the close column has one positive entry per row |
| Scoring.Window | backtest.py:30-33 | a rolling window with `min_periods=1` is the last min(w, n) values |
| Scoring.Drawdown90 | backtest.py:33-34 | `(High90 − Close) / High90` on the last row |
| Scoring.DrawdownRange | backtest.py:33-34 | with positive closes the 90-row drawdown lies in [0, 1), since the rolling maximum includes the current close |
| Scoring.Momentum30 | backtest.py:36 | the 30-row change exists exactly when there are more than 30 rows |
| Scoring.ReadingsOf | backtest.py:41-46 | a missing RSI becomes 50.0; a missing volatility or momentum becomes 0.0 |
| Scoring.Composite | backtest.py:55-63 | the six-term weighted sum of the sub-scores |
| Scoring.ScoreValue | backtest.py:67 | `round(100 × composite, 1)` |
| Scoring.Weighted | backtest.py:56-63 | a non-negative weight times a sub-score in [0, 1] lies between 0 and the weight |
| Scoring.CompositeRange | backtest.py:55-63 | with non-negative weights summing to 1 and sub-scores in [0, 1], the composite is in [0, 1] |
| Scoring.SubScoresInRange | backtest.py:48-53 | normalisers that map into [0, 1] give six sub-scores in [0, 1] |
| Scoring.ScoreValueInRange | backtest.py:67 | under those conditions the rounded score is in [0, 100] |
| Scoring.HighAtLeastClose | backtest.py:33 | the rolling maximum is at least the last close, which is positive |
| Scoring.Seen | backtest.py:25 | `iloc[:i+1]` keeps i + 1 rows, or all of them when fewer exist |
| Scoring.ClosesTail | backtest.py:30-31 | the last w closes of the prefix are the closes at those positions of the whole frame |
| Scoring.ScoreOn | backtest.py:27-72 | nothing below 200 rows; otherwise the last row's date and close, MA50 and MA200 the means of the last 50 and 200 closes, the RSI rounded to two decimals (50 when missing), and the score `round(100 * composite, 1)` of the last row's readings |
| Scoring.ScoreAt | backtest.py:25-28 | the score is taken on rows 0..i only, gated exactly when fewer than 200 such rows exist; the snapshot's date, close, moving averages, rounded RSI and score are those of row `Seen - 1` and the closes before it |
| Scoring.NoLookahead | backtest.py:25 | appending rows after the scoring date does not change the result |
| Scoring.ScoreInRange | backtest.py:55-67 | every produced score lies in [0, 100] under convex weights and normalisers in [0, 1] |
| Scoring.ParamsFromConfig | backtest.py:48-62 | the caps and the six weights are read from the configuration; a missing or non-numeric entry is an error |
| Scoring.DefaultParamsConvex | core/config.py:116-133 | the default configuration yields caps 0.25/0.10 and weights 0.25, 0.25, 0.20, 0.15, 0.10, 0.05, which are convex |
| WalkForward.FirstAtOrAfter | core/backtest.py:63 | `searchsorted`: all earlier timestamps are before the start date and all later ones at or after it |
| WalkForward.VisitsExactly | core/backtest.py:66 | the loop visits exactly the indices start + k·interval below the length |
| WalkForward.EmittedIndices | core/backtest.py:66-70 | every emitted index has a score and a 30-row forward close |
| WalkForward.EmittedAreVisited | core/backtest.py:66 | every emitted index is a visited one, and there are at most as many records as visited indices |
| WalkForward.EmittedComplete | core/backtest.py:66-75 | every visited index with a score and a 30-row forward close is emitted |
| WalkForward.EmittedIncreasing | core/backtest.py:66-75 | the emitted indices are at or after the start index and strictly increase |
| WalkForward.RecordsAt | core/backtest.py:70-75 | each record pairs the snapshot with `round((close[i+30] − close[i]) / close[i] × 100, 2)` |
| WalkForward.WalkIsEmitted | core/backtest.py:66-75 | the results frame is the records of exactly the emitted indices, in visiting order |
| WalkForward.Visits | core/backtest.py:66 | `range(start, n, step)` |
| WalkForward.Return30 | core/backtest.py:70-74 | `round((close[i+30] − close[i]) / close[i] × 100, 2)` |
| WalkForward.Walk | core/backtest.py:62-77 | the results the strided loop appends, in visiting order |
| WalkForward.Backtest | core/backtest.py:45-77 | None exactly when the download raises or returns no rows; an empty frame when `dropna` leaves no row |
| WalkForward.RunBacktest | core/backtest.py:27-77 | the download checks, then the strided loop: equal to Backtest |
| WalkForward.WalkLoop | core/backtest.py:62-77 | the accumulating loop produces exactly the walk |
| WalkForward.ReachesHistoryVisits | backtest.py:97-98 | the loop reaches a row with 200 rows of history exactly when some visited index has at least 200 rows up to it |
| WalkForward.WalkBeforeHistory | backtest.py:97-99 | visited rows before that point score nothing, so the frame is empty whatever the weights |
| WalkForward.TickerBacktest | backtest.py:48-108 | a raising download raises and an empty one gives None; a configuration missing a cap or weight raises exactly when the loop reaches 200 rows of history and gives an empty frame otherwise; a complete one gives the weekly walk |
| WalkForward.BacktestTicker | backtest.py:74-108 | `backtest_ticker` on the raw YAML dictionary: equal to TickerBacktest |
| WalkForward.WeeklyRecordsOrdered | backtest.py:94-106 | record dates strictly increase and are at or after the start date; scores are percentages under convex weights |
| Analysis.CategoryOf | core/backtest.py:95-99 | right-closed bins (0, 45], (45, 55], (55, 100]; a score outside (0, 100] is in no bin |
| Analysis.Categorise | backtest.py:119-123 | the `score_category` column holds each row's bin |
| Analysis.Select | core/backtest.py:105 | a filter keeps exactly the rows whose score passes, and is empty exactly when none passes |
| Analysis.SelectCounts | core/backtest.py:105 | each passing row is kept once per occurrence and every other row is dropped, so a block's count is the number of passing rows |
| Analysis.SelectAppend | core/backtest.py:105 | filtering a concatenation filters each part, so the kept rows stay in frame order |
| Analysis.ReturnsOf | core/backtest.py:101 | the `return_30d` column |
| Analysis.CategoryBlock | core/backtest.py:101-102 | a bin's count is the number of rows in it; its mean is missing exactly when it is empty |
| Analysis.FavorableBlock | core/backtest.py:107-114 | the count, a success rate in [0, 100], and rounded min ≤ mean ≤ max |
| Analysis.GlobalBlock | core/backtest.py:130-136 | the total is the number of rows and the success rate is in [0, 100] |
| Analysis.FavorableOf | core/backtest.py:105-114 | the `favorable` block is present exactly when some score is above 55 |
| Analysis.UnfavorableOf | core/backtest.py:117-123 | the `unfavorable` block is present exactly when some score is below 45, with their count |
| Analysis.ByCategory | core/backtest.py:95-102 | every bin appears in `by_category` |
| Analysis.AnalyzeResults | core/backtest.py:79-138 | `{}` exactly for an empty frame; otherwise all three bins, the two strict filters with their presence conditions and statistics, and the global block |
| Analysis.BoundaryScores | core/backtest.py:95-117 | in any frame, each occurrence of a record scored exactly 45 (or 55) is kept in the "<45" (or neutral) bin and counted there, yet the record is in neither the `score > 55` nor the `score < 45` block |
| Analysis.LegacyAnalyze | backtest.py:110-149 | nothing for an empty frame; otherwise every row, in order, with its `pd.cut` category |
| MultiTicker.Tag | core/backtest.py:159-162 | each row of a frame gets its ticker and its category |
| MultiTicker.RecordsOf | core/backtest.py:166-169 | the records of the combined frame, in order |
| MultiTicker.Combined | core/backtest.py:156-166 | the concatenation of the tagged non-empty frames, in ticker order |
| MultiTicker.PerTicker | core/backtest.py:156-163 | the per-ticker analyses, a repeated ticker overwriting its entry |
| MultiTicker.RunMultiTickerBacktest | core/backtest.py:140-174 | `(None, {})` exactly when no ticker produced rows; otherwise the in-order concatenation of the non-empty frames, the per-ticker analyses and `_global` |
| MultiTicker.CollectResults | core/backtest.py:153-163 | the ticker loop builds exactly the combined rows and the per-ticker analyses |
| MultiTicker.CombinedEmptyIff | core/backtest.py:165 | the combined frame is empty exactly when every ticker's backtest failed or was empty |
| MultiTicker.CombinedProvenance | core/backtest.py:156-166 | every combined row is a record of a listed ticker that produced rows, tagged with that ticker and its category |
| MultiTicker.CombinedSnoc | core/backtest.py:158-160 | one more ticker appends its tagged frame, if it produced rows |
| MultiTicker.PerTickerSnoc | core/backtest.py:162-163 | one more ticker that produced rows sets or overwrites its own analysis |
| MultiTicker.CombinedLength | core/backtest.py:166 | the combined frame has as many rows as all the tickers' backtests together, repeats included |
| MultiTicker.PerTickerByTicker | core/backtest.py:156-163 | the analyses hold exactly the listed tickers that produced rows, each analysed on its own results |

## Left out

- **Data retrieval and preparation.** The `yf.download` call, the 400-day extended start, MultiIndex flattening and `dropna` are left out. The model receives from `fetch` either nothing (the download raised) or the number of rows downloaded together with the rows `dropna` kept.
- **SQLite and file mechanics.** Connections, `init_database`, the timestamp columns, YAML and file reading, logging, `print` and the CSV output are left out.
- **Plain reads.** `get_formulas` and `get_weight_profiles` are plain reads of the tables, and their sort order is not modelled.
- ConfigStore.ConfigManager.GetTickers: it lists rows in table order. `SELECT symbol FROM tickers` without `ORDER BY` may come back in primary-key order.
- **JSON and YAML parsing.** Both are abstract. The JSON codec is a pair of functions; no round-trip law is assumed, and the lemmas about `set_config_value` speak of what the stored text decodes to. A YAML root that is not a dictionary is not modelled, and neither is dictionary insertion order.
- **Description fields.** A `description` column left as SQL NULL is not modelled (it is read back as `''`).
- **Unseen scoring code.** `ScoringEngine`, `compute_rsi`, the rolling standard deviation `Vol20` and the six `score_*` normalisers live in code that is not part of this model. They are parameters; their [0, 1] range is a hypothesis of the range lemmas.
- **Statistics not modelled.** `median`, `std`, the Pearson correlation and the `by_category` median and standard deviation are floating-point statistics outside the model.
- **Floating point.** Python rounds binary floats; the model rounds exact reals half to even.
- **NaN moving averages.** `np.nan` moving averages cannot occur once 200 rows are present, so the NaN path of MA50/MA200 is not modelled.
- WalkForward.RunBacktest: it requires a non-zero interval. Python's `range` raises on a zero step.
- Scoring.ParamsFromConfig: a missing key, which raises `KeyError` in Python, is answered with None. A weight that Python would coerce from `bool` is treated as missing, so TickerBacktest raises where Python would score with it. A cap that is not a number (`bool`, `null` or a string) is also treated as raising; in Python it goes straight into the `score_drawdown` / `score_volatility` normaliser, which is not part of this model, so its effect there is unknown.
- **Shared dictionaries.** Configuration values are trees, not shared objects. A YAML anchor that makes two entries the same dictionary is not modelled: in Python `setdefault` on `weights` and the dotted override walk update every alias of that dictionary in place.
- **A download whose own call fails in core/backtest.py.** `run_backtest` catches it and answers None, as Backtest does; `backtest_ticker` lets it escape, which TickerBacktest answers with Raised. Other exceptions `compute_score_at_date` could raise inside the unmodelled normalisers are not modelled.
