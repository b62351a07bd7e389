/**
 * The layered resolution performed by `ConfigManager.get_config` (core/config.py), as
 * functions of the YAML input and the contents of the store's tables:
 * YAML, then "set if absent" defaults, then the key/value overrides in table order,
 * then the `formulas` / `formula_weights` entries, then the enabled ticker list.
 */
module ConfigResolve {
  import opened Wrappers
  import opened ConfigValues

  /** A row of the `config` table. */
  datatype ConfigRow = ConfigRow(key: string, value: string, description: string)

  /** A row of the `formulas` table, keyed by name. */
  datatype Formula = Formula(formula: string, weight: real, description: string)

  /** A row of the `tickers` table. */
  datatype TickerRow = TickerRow(symbol: string, enabled: bool)

  /** The top-level values `get_config` sets when the YAML lacks them. */
  const TOP_DEFAULTS: Config := map[
    "data_period" := Str("365d"),
    "drawdown_cap" := Num(0.25),
    "volatility_cap" := Num(0.10),
    "output_csv" := Str("/data/scores_history.csv"),
    "log_file" := Str("/data/bot_daily_score.log"),
    "timezone" := Str("Europe/Paris"),
    "dev_mode" := Bool(false),
    "schedule_hour" := Num(22.0),
    "schedule_minute" := Num(10.0)]

  /** The composite weights `get_config` sets inside `weights` when absent. */
  const WEIGHT_DEFAULTS: Config := map[
    "drawdown90" := Num(0.25),
    "rsi14" := Num(0.25),
    "dist_ma50" := Num(0.20),
    "momentum30" := Num(0.15),
    "trend_ma200" := Num(0.10),
    "volatility20" := Num(0.05)]

  /** The YAML's own `weights` entries, when it has a `weights` dictionary. */
  function YamlWeights(yaml: Config): Config
  {
    if "weights" in yaml && yaml["weights"].Map? then yaml["weights"].entries else map[]
  }

  /**
   * The defaults stage. None where Python raises `AttributeError`: the YAML has a `weights`
   * entry that is not a dictionary, so `setdefault` cannot be called on it.
   */
  function WithDefaults(yaml: Config): (r: Option<Config>)
    ensures r.None? <==> "weights" in yaml && !yaml["weights"].Map?
    ensures r.Some? ==> forall k :: k in yaml && k != "weights" ==> k in r.value && r.value[k] == yaml[k]
    ensures r.Some? ==> forall k :: k in TOP_DEFAULTS && k !in yaml ==> k in r.value && r.value[k] == TOP_DEFAULTS[k]
    ensures r.Some? ==> r.value.Keys == yaml.Keys + TOP_DEFAULTS.Keys + {"weights"}
    ensures r.Some? ==> "weights" in r.value && r.value["weights"].Map?
    ensures r.Some? ==> forall k :: k in YamlWeights(yaml) ==> k in r.value["weights"].entries && r.value["weights"].entries[k] == YamlWeights(yaml)[k]
    ensures r.Some? ==> forall k :: k in WEIGHT_DEFAULTS && k !in YamlWeights(yaml) ==> k in r.value["weights"].entries && r.value["weights"].entries[k] == WEIGHT_DEFAULTS[k]
  {
    var c := TOP_DEFAULTS + yaml;
    var w := if "weights" in c then c["weights"] else Map(map[]);
    if !w.Map? then None else Some(c["weights" := Map(WEIGHT_DEFAULTS + w.entries)])
  }

  /** What `set_config_value` writes into the `value` column: strings raw, anything else encoded. */
  function StoredText(v: Value, codec: Codec): string
  {
    if v.Str? then v.s else codec.encode(v)
  }

  /**
   * One override row. A value that does not decode is kept as the raw string under the literal
   * key; a decoded value under a dotted key goes through the nested walk; otherwise it replaces
   * the top-level entry. None where the walk raises `TypeError`.
   */
  function ApplyOverride(c: Config, row: ConfigRow, codec: Codec): (r: Option<Config>)
    ensures codec.decode(row.value).None? ==> r == Some(c[row.key := Str(row.value)])
    ensures r.None? <==> codec.decode(row.value).Some? && '.' in row.key && Blocked(c, Split(row.key))
    ensures r.Some? && codec.decode(row.value).Some? ==> Get(Map(r.value), Split(row.key)) == codec.decode(row.value)
    ensures r.Some? ==> c.Keys <= r.value.Keys
  {
    match codec.decode(row.value)
    case None => Some(c[row.key := Str(row.value)])
    case Some(v) =>
      if '.' in row.key then
        SetPathFailsIffBlocked(c, Split(row.key), v);
        var r := SetPath(c, Split(row.key), v);
        if r.Some? then SetPathReadBack(c, Split(row.key), v); SetPathKeys(c, Split(row.key), v); r else r
      else
        SplitSingle(row.key);
        Some(c[row.key := v])
  }

  /** The result of the override stage: the configuration so far, and whether a row raised. */
  datatype Overridden = Overridden(config: Config, aborted: bool)

  /** The override rows in table order; a raising row ends the stage, keeping what was built. */
  function ApplyOverrides(c: Config, rows: seq<ConfigRow>, codec: Codec): (r: Overridden)
    ensures c.Keys <= r.config.Keys
    ensures rows == [] ==> !r.aborted
    decreases |rows|
  {
    if rows == [] then Overridden(c, false)
    else
      match ApplyOverride(c, rows[0], codec)
      case None => Overridden(c, true)
      case Some(c') => ApplyOverrides(c', rows[1..], codec)
  }

  /** The stage is a left fold: a row appended at the end is applied last. */
  lemma {:induction false} ApplyOverridesSnoc(c: Config, rows: seq<ConfigRow>, row: ConfigRow, codec: Codec)
    ensures var o := ApplyOverrides(c, rows, codec);
      ApplyOverrides(c, rows + [row], codec) ==
        if o.aborted then o
        else match ApplyOverride(o.config, row, codec)
          case None => Overridden(o.config, true)
          case Some(c') => Overridden(c', false)
    decreases |rows|
  {
    if rows == [] {
      assert [] + [row] == [row];
    } else {
      assert (rows + [row])[1..] == rows[1..] + [row];
      match ApplyOverride(c, rows[0], codec)
      case None =>
      case Some(c') => ApplyOverridesSnoc(c', rows[1..], row, codec);
    }
  }

  /** `formulas` (name to formula text) as `get_config` exposes it. */
  function FormulaTexts(formulas: map<string, Formula>): Config
  {
    map n | n in formulas :: Str(formulas[n].formula)
  }

  /** The name-to-text dictionary is empty exactly when the formulas table is. */
  lemma FormulaTextsEmpty(formulas: map<string, Formula>)
    ensures |FormulaTexts(formulas)| == 0 <==> |formulas| == 0
  {
    if |formulas| > 0 {
      var n :| n in formulas;
      assert n in FormulaTexts(formulas);
    }
  }

  /** `formula_weights` (name to weight) as `get_config` exposes it. */
  function FormulaWeights(formulas: map<string, Formula>): Config
  {
    map n | n in formulas :: Num(formulas[n].weight)
  }

  /** The symbols of the rows (of the enabled rows only, when `enabledOnly`), in table order. */
  function Symbols(tickers: seq<TickerRow>, enabledOnly: bool): (syms: seq<string>)
    ensures |syms| <= |tickers|
    ensures forall s :: s in syms <==> exists i :: 0 <= i < |tickers| && (tickers[i].enabled || !enabledOnly) && tickers[i].symbol == s
  {
    if tickers == [] then []
    else
      var init := tickers[..|tickers| - 1];
      var last := tickers[|tickers| - 1];
      assert forall i :: 0 <= i < |init| ==> init[i] == tickers[i];
      Symbols(init, enabledOnly) + (if last.enabled || !enabledOnly then [last.symbol] else [])
  }

  /** A list of symbols as a configuration value. */
  function SymbolList(syms: seq<string>): (v: Value)
    ensures v.List? && |v.items| == |syms|
    ensures forall i :: 0 <= i < |syms| ==> v.items[i] == Str(syms[i])
  {
    List(seq(|syms|, i requires 0 <= i < |syms| => Str(syms[i])))
  }

  /** The keys the table stages write; everything else comes out of the override stage. */
  predicate TableKey(k: string)
  {
    k == "formulas" || k == "formula_weights" || k == "tickers"
  }

  /**
   * The formulas and tickers stages, run after an override stage that did not raise.
   * A non-empty formulas table is exposed under its own two keys (`weights` is left alone);
   * at least one enabled ticker row replaces `tickers` entirely, otherwise `tickers` is what
   * the earlier stages left.
   */
  function WithTables(c: Config, formulas: map<string, Formula>, tickers: seq<TickerRow>): (r: Config)
    ensures Symbols(tickers, true) != [] ==> "tickers" in r && r["tickers"] == SymbolList(Symbols(tickers, true))
    ensures Symbols(tickers, true) == [] ==> ("tickers" in r <==> "tickers" in c) && ("tickers" in c ==> r["tickers"] == c["tickers"])
    ensures |formulas| > 0 ==> "formulas" in r && r["formulas"] == Map(FormulaTexts(formulas))
    ensures |formulas| > 0 ==> "formula_weights" in r && r["formula_weights"] == Map(FormulaWeights(formulas))
    ensures |formulas| == 0 ==> forall k :: k != "tickers" ==> (k in r <==> k in c) && (k in c ==> r[k] == c[k])
    ensures forall k :: !TableKey(k) ==> (k in r <==> k in c) && (k in c ==> r[k] == c[k])
    ensures c.Keys <= r.Keys
  {
    var withFormulas :=
      if |formulas| == 0 then c
      else c["formulas" := Map(FormulaTexts(formulas))]["formula_weights" := Map(FormulaWeights(formulas))];
    var syms := Symbols(tickers, true);
    if syms == [] then withFormulas else withFormulas["tickers" := SymbolList(syms)]
  }

  /**
   * The configuration `get_config` returns for a given YAML input and table contents;
   * None where it raises.
   */
  function Resolve(yaml: Config, rows: seq<ConfigRow>, formulas: map<string, Formula>,
                   tickers: seq<TickerRow>, codec: Codec): (r: Option<Config>)
    ensures r.None? <==> "weights" in yaml && !yaml["weights"].Map?
    ensures r.Some? ==> yaml.Keys + TOP_DEFAULTS.Keys + {"weights"} <= r.value.Keys
  {
    match WithDefaults(yaml)
    case None => None
    case Some(c) =>
      var o := ApplyOverrides(c, rows, codec);
      if o.aborted then Some(o.config) else Some(WithTables(o.config, formulas, tickers))
  }

  /**
   * Writing `v` under `key` with `set_config_value` (which moves the row to the end of the
   * table) and resolving again. The stored text is re-decoded: when it decodes, the decoded
   * value is found at the key's path; when it does not, the raw text sits under the literal
   * (even dotted) key. So a non-string `v` whose encoding decodes back to `v` comes back at the
   * path, and a string comes back decoded or raw. This holds when the earlier rows do not
   * raise, a decoded value's path is not blocked, and the key does not start with one of the
   * table keys (which the table stages overwrite).
   */
  lemma {:induction false} SetThenResolve(yaml: Config, rows: seq<ConfigRow>, formulas: map<string, Formula>,
                                          tickers: seq<TickerRow>, codec: Codec,
                                          key: string, v: Value, description: string)
    requires WithDefaults(yaml).Some?
    requires var o := ApplyOverrides(WithDefaults(yaml).value, rows, codec);
      !o.aborted && (codec.decode(StoredText(v, codec)).Some? ==> !Blocked(o.config, Split(key)))
    requires !TableKey(Split(key)[0])
    ensures var text := StoredText(v, codec);
      var r := Resolve(yaml, rows + [ConfigRow(key, text, description)], formulas, tickers, codec);
      && r.Some?
      && (codec.decode(text).Some? ==> Get(Map(r.value), Split(key)) == codec.decode(text))
      && (codec.decode(text).None? ==> key in r.value && r.value[key] == Str(text))
      && (!v.Str? && codec.decode(codec.encode(v)) == Some(v) ==> Get(Map(r.value), Split(key)) == Some(v))
      && (v.Str? && codec.decode(v.s).None? ==> key in r.value && r.value[key] == v)
  {
    var c := WithDefaults(yaml).value;
    var text := StoredText(v, codec);
    var row := ConfigRow(key, text, description);
    OverrideLast(c, rows, codec, key, text, description);
    var c' := ApplyOverrides(c, rows + [row], codec).config;
    var r := WithTables(c', formulas, tickers);
    assert Resolve(yaml, rows + [row], formulas, tickers, codec) == Some(r);
    GetSameHead(c', r, Split(key));
    if codec.decode(text).None? {
      SplitSingle(key);
      if '.' in key {
        DottedIsNotTableKey(key);
      }
    }
  }

  lemma DottedIsNotTableKey(key: string)
    requires '.' in key
    ensures !TableKey(key)
  {
    assert '.' !in "formulas" && '.' !in "formula_weights" && '.' !in "tickers";
  }

  /** A path lookup only sees the entry its first piece names. */
  lemma GetSameHead(a: Config, b: Config, path: seq<string>)
    requires path != []
    requires path[0] in a <==> path[0] in b
    requires path[0] in a ==> a[path[0]] == b[path[0]]
    ensures Get(Map(a), path) == Get(Map(b), path)
  {
  }

  /**
   * The override-stage half of SetThenResolve: a row stored last wins. Its text, when it
   * decodes, is found at the key's path; otherwise it is kept raw under the literal key.
   */
  lemma {:induction false} OverrideLast(c: Config, rows: seq<ConfigRow>, codec: Codec,
                                        key: string, text: string, description: string)
    requires var o := ApplyOverrides(c, rows, codec);
      !o.aborted && (codec.decode(text).Some? ==> !Blocked(o.config, Split(key)))
    ensures var o := ApplyOverrides(c, rows + [ConfigRow(key, text, description)], codec);
      && !o.aborted
      && (codec.decode(text).Some? ==> Get(Map(o.config), Split(key)) == codec.decode(text))
      && (codec.decode(text).None? ==> key in o.config && o.config[key] == Str(text))
  {
    ApplyOverridesSnoc(c, rows, ConfigRow(key, text, description), codec);
  }
}
