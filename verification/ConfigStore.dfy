/**
 * `ConfigManager` (core/config.py): the store's five tables held as fields of a class, the
 * operations that change them, and `get_config` / `get_config_value` / `get_tickers` run
 * against them. Each SQL statement is one assignment to a field; the Python loops are loops.
 */
module ConfigStore {
  import opened Wrappers
  import opened ConfigValues
  import opened ConfigResolve

  /** A row of `weight_profiles`, keyed by its id. */
  datatype Profile = Profile(name: string, description: string, active: bool)

  /** `config.key` is the primary key. */
  predicate DistinctKeys(rows: seq<ConfigRow>)
  {
    forall i, j :: 0 <= i < j < |rows| ==> rows[i].key != rows[j].key
  }

  /** `tickers.symbol` is the primary key. */
  predicate DistinctSymbols(tickers: seq<TickerRow>)
  {
    forall i, j :: 0 <= i < j < |tickers| ==> tickers[i].symbol != tickers[j].symbol
  }

  /** `weight_profiles.name` is UNIQUE. */
  predicate DistinctNames(profiles: map<int, Profile>)
  {
    forall a, b :: a in profiles && b in profiles && profiles[a].name == profiles[b].name ==> a == b
  }

  /** No two profiles are active at once. */
  predicate AtMostOneActive(profiles: map<int, Profile>)
  {
    forall a, b :: a in profiles && b in profiles && profiles[a].active && profiles[b].active ==> a == b
  }

  /** Some profile other than `id` already carries `name`. */
  predicate NameTaken(profiles: map<int, Profile>, name: string, id: int)
  {
    exists other :: other in profiles && other != id && profiles[other].name == name
  }

  /** The config table with the row for `key` deleted (the first half of INSERT OR REPLACE). */
  function WithoutKey(rows: seq<ConfigRow>, key: string): (r: seq<ConfigRow>)
    ensures forall row :: row in r <==> row in rows && row.key != key
    ensures |r| <= |rows|
  {
    if rows == [] then []
    else (if rows[0].key == key then [] else [rows[0]]) + WithoutKey(rows[1..], key)
  }

  /** The tickers table with the row for `symbol` deleted. */
  function WithoutSymbol(tickers: seq<TickerRow>, symbol: string): (r: seq<TickerRow>)
    ensures forall t :: t in r <==> t in tickers && t.symbol != symbol
    ensures |r| <= |tickers|
  {
    if tickers == [] then []
    else (if tickers[0].symbol == symbol then [] else [tickers[0]]) + WithoutSymbol(tickers[1..], symbol)
  }

  /** The tickers table after `UPDATE tickers SET enabled = ? WHERE symbol = ?`. */
  function Toggled(tickers: seq<TickerRow>, symbol: string, enabled: bool): (r: seq<TickerRow>)
    ensures |r| == |tickers|
    ensures forall i :: 0 <= i < |r| ==> r[i].symbol == tickers[i].symbol
    ensures forall i :: 0 <= i < |r| ==> r[i].enabled == if tickers[i].symbol == symbol then enabled else tickers[i].enabled
  {
    seq(|tickers|, i requires 0 <= i < |tickers| =>
      if tickers[i].symbol == symbol then TickerRow(symbol, enabled) else tickers[i])
  }

  /** The profiles after deactivating all of them and activating `id`. */
  function Activate(profiles: map<int, Profile>, id: int): (r: map<int, Profile>)
    ensures r.Keys == profiles.Keys
    ensures forall k :: k in r ==> r[k].active == (k == id)
    ensures forall k :: k in r ==> r[k].name == profiles[k].name && r[k].description == profiles[k].description
  {
    map k | k in profiles :: profiles[k].(active := k == id)
  }

  /** The formulas after each one named in `w` takes its weight from `w`; nothing is created. */
  function Activated(formulas: map<string, Formula>, w: map<string, real>): (r: map<string, Formula>)
    ensures r.Keys == formulas.Keys
    ensures forall n :: n in r && n in w ==> r[n] == formulas[n].(weight := w[n])
    ensures forall n :: n in r && n !in w ==> r[n] == formulas[n]
  {
    map n | n in formulas :: if n in w then formulas[n].(weight := w[n]) else formulas[n]
  }

  /** The weight of every formula, as `save_current_weights_to_profile` collects them. */
  function CurrentWeights(formulas: map<string, Formula>): (w: map<string, real>)
    ensures w.Keys == formulas.Keys
    ensures forall n :: n in w ==> w[n] == formulas[n].weight
  {
    map n | n in formulas :: formulas[n].weight
  }

  /** The `profile_weights` rows of profile `id`, as `get_profile_weights` returns them. */
  function WeightsOf(pw: map<(int, string), real>, id: int): (w: map<string, real>)
    ensures forall n :: n in w <==> (id, n) in pw
    ensures forall n :: n in w ==> w[n] == pw[(id, n)]
  {
    map n | n in (set k | k in pw && k.0 == id :: k.1) :: pw[(id, n)]
  }

  /** `profile_weights` after deleting the rows of `id` and inserting one row per entry of `w`. */
  function Replaced(pw: map<(int, string), real>, id: int, w: map<string, real>): (r: map<(int, string), real>)
    ensures WeightsOf(r, id) == w
    ensures forall k: (int, string) :: k.0 != id ==> (k in r <==> k in pw) && (k in pw ==> r[k] == pw[k])
  {
    var r := map k | k in (set k | k in pw && k.0 != id) + (set n | n in w :: (id, n)) ::
      if k.0 == id then w[k.1] else pw[k];
    assert WeightsOf(r, id).Keys == w.Keys;
    r
  }

  /** Activating what was just saved from the formulas puts back the same weights. */
  lemma SaveCurrentThenActivate(formulas: map<string, Formula>, pw: map<(int, string), real>, id: int)
    ensures Activated(formulas, WeightsOf(Replaced(pw, id, CurrentWeights(formulas)), id)) == formulas
  {
    var w := WeightsOf(Replaced(pw, id, CurrentWeights(formulas)), id);
    var a := Activated(formulas, w);
    assert forall n :: n in a ==> a[n] == formulas[n];
  }

  /** Deleting a key and appending a row for it keeps the keys distinct. */
  lemma {:induction false} UpsertKeepsKeysDistinct(rows: seq<ConfigRow>, row: ConfigRow)
    requires DistinctKeys(rows)
    ensures DistinctKeys(WithoutKey(rows, row.key) + [row])
  {
    WithoutKeyDistinct(rows, row.key);
    var r := WithoutKey(rows, row.key);
    assert forall i :: 0 <= i < |r| ==> r[i] in r && r[i].key != row.key;
  }

  lemma {:induction false} WithoutKeyDistinct(rows: seq<ConfigRow>, key: string)
    requires DistinctKeys(rows)
    ensures DistinctKeys(WithoutKey(rows, key))
  {
    if rows != [] {
      WithoutKeyDistinct(rows[1..], key);
      var tail := WithoutKey(rows[1..], key);
      assert forall j :: 0 <= j < |tail| ==> tail[j] in rows[1..];
      assert forall j :: 0 <= j < |tail| ==> tail[j].key != rows[0].key;
    }
  }

  /** Deleting a symbol and appending a row for it keeps the symbols distinct. */
  lemma {:induction false} UpsertKeepsSymbolsDistinct(tickers: seq<TickerRow>, t: TickerRow)
    requires DistinctSymbols(tickers)
    ensures DistinctSymbols(WithoutSymbol(tickers, t.symbol) + [t])
  {
    WithoutSymbolDistinct(tickers, t.symbol);
    var r := WithoutSymbol(tickers, t.symbol);
    assert forall i :: 0 <= i < |r| ==> r[i] in r && r[i].symbol != t.symbol;
  }

  lemma {:induction false} WithoutSymbolDistinct(tickers: seq<TickerRow>, symbol: string)
    requires DistinctSymbols(tickers)
    ensures DistinctSymbols(WithoutSymbol(tickers, symbol))
  {
    if tickers != [] {
      WithoutSymbolDistinct(tickers[1..], symbol);
      var tail := WithoutSymbol(tickers[1..], symbol);
      assert forall j :: 0 <= j < |tail| ==> tail[j] in tickers[1..];
      assert forall j :: 0 <= j < |tail| ==> tail[j].symbol != tickers[0].symbol;
    }
  }

  /**
   * Deleting a key keeps the other rows in table order: nothing changes when no row has the
   * key, and with distinct keys exactly the row holding it is cut out.
   */
  lemma {:induction false} WithoutKeyKeepsOrder(rows: seq<ConfigRow>, key: string)
    ensures (forall i :: 0 <= i < |rows| ==> rows[i].key != key) ==> WithoutKey(rows, key) == rows
    ensures DistinctKeys(rows) ==> forall i :: 0 <= i < |rows| && rows[i].key == key ==>
      WithoutKey(rows, key) == rows[..i] + rows[i + 1..]
  {
    WithoutKeyAbsent(rows, key);
    if DistinctKeys(rows) {
      forall i | 0 <= i < |rows| && rows[i].key == key
        ensures WithoutKey(rows, key) == rows[..i] + rows[i + 1..]
      {
        WithoutKeyAt(rows, key, i);
      }
    }
  }

  lemma {:induction false} WithoutKeyAt(rows: seq<ConfigRow>, key: string, i: nat)
    requires DistinctKeys(rows) && i < |rows| && rows[i].key == key
    ensures WithoutKey(rows, key) == rows[..i] + rows[i + 1..]
  {
    var tail := rows[1..];
    if i == 0 {
      assert forall j :: 0 <= j < |tail| ==> tail[j].key != key by {
        forall j | 0 <= j < |tail| ensures tail[j].key != key {
          assert tail[j] == rows[j + 1];
        }
      }
      WithoutKeyAbsent(tail, key);
    } else {
      assert DistinctKeys(tail) by {
        forall a, b | 0 <= a < b < |tail| ensures tail[a].key != tail[b].key {
          assert tail[a] == rows[a + 1] && tail[b] == rows[b + 1];
        }
      }
      WithoutKeyAt(tail, key, i - 1);
      assert rows[0].key != key;
      assert rows[..i] == [rows[0]] + tail[..i - 1];
      assert rows[i + 1..] == tail[i..];
      ConcatAssoc([rows[0]], tail[..i - 1], tail[i..]);
    }
  }

  lemma {:induction false} WithoutKeyAbsent(rows: seq<ConfigRow>, key: string)
    ensures (forall i :: 0 <= i < |rows| ==> rows[i].key != key) ==> WithoutKey(rows, key) == rows
  {
    if rows != [] {
      WithoutKeyAbsent(rows[1..], key);
      assert rows == [rows[0]] + rows[1..];
    }
  }

  lemma {:induction false} WithoutKeyAppend(a: seq<ConfigRow>, b: seq<ConfigRow>, key: string)
    ensures WithoutKey(a + b, key) == WithoutKey(a, key) + WithoutKey(b, key)
  {
    if a == [] {
      assert a + b == b;
    } else {
      var head := if a[0].key == key then [] else [a[0]];
      assert (a + b)[0] == a[0] && (a + b)[1..] == a[1..] + b;
      WithoutKeyAppend(a[1..], b, key);
      ConcatAssoc(head, WithoutKey(a[1..], key), WithoutKey(b, key));
    }
  }

  /**
   * Deleting a symbol keeps the other rows in table order: nothing changes when no row has the
   * symbol, and with distinct symbols exactly the row holding it is cut out.
   */
  lemma {:induction false} WithoutSymbolKeepsOrder(tickers: seq<TickerRow>, symbol: string)
    ensures (forall i :: 0 <= i < |tickers| ==> tickers[i].symbol != symbol) ==> WithoutSymbol(tickers, symbol) == tickers
    ensures DistinctSymbols(tickers) ==> forall i :: 0 <= i < |tickers| && tickers[i].symbol == symbol ==>
      WithoutSymbol(tickers, symbol) == tickers[..i] + tickers[i + 1..]
  {
    WithoutSymbolAbsent(tickers, symbol);
    if DistinctSymbols(tickers) {
      forall i | 0 <= i < |tickers| && tickers[i].symbol == symbol
        ensures WithoutSymbol(tickers, symbol) == tickers[..i] + tickers[i + 1..]
      {
        WithoutSymbolAt(tickers, symbol, i);
      }
    }
  }

  lemma {:induction false} WithoutSymbolAt(tickers: seq<TickerRow>, symbol: string, i: nat)
    requires DistinctSymbols(tickers) && i < |tickers| && tickers[i].symbol == symbol
    ensures WithoutSymbol(tickers, symbol) == tickers[..i] + tickers[i + 1..]
  {
    var tail := tickers[1..];
    if i == 0 {
      assert forall j :: 0 <= j < |tail| ==> tail[j].symbol != symbol by {
        forall j | 0 <= j < |tail| ensures tail[j].symbol != symbol {
          assert tail[j] == tickers[j + 1];
        }
      }
      WithoutSymbolAbsent(tail, symbol);
    } else {
      assert DistinctSymbols(tail) by {
        forall a, b | 0 <= a < b < |tail| ensures tail[a].symbol != tail[b].symbol {
          assert tail[a] == tickers[a + 1] && tail[b] == tickers[b + 1];
        }
      }
      WithoutSymbolAt(tail, symbol, i - 1);
      assert tickers[0].symbol != symbol;
      assert tickers[..i] == [tickers[0]] + tail[..i - 1];
      assert tickers[i + 1..] == tail[i..];
      ConcatAssoc([tickers[0]], tail[..i - 1], tail[i..]);
    }
  }

  lemma {:induction false} WithoutSymbolAbsent(tickers: seq<TickerRow>, symbol: string)
    ensures (forall i :: 0 <= i < |tickers| ==> tickers[i].symbol != symbol) ==> WithoutSymbol(tickers, symbol) == tickers
  {
    if tickers != [] {
      WithoutSymbolAbsent(tickers[1..], symbol);
      assert tickers == [tickers[0]] + tickers[1..];
    }
  }

  lemma {:induction false} WithoutSymbolAppend(a: seq<TickerRow>, b: seq<TickerRow>, symbol: string)
    ensures WithoutSymbol(a + b, symbol) == WithoutSymbol(a, symbol) + WithoutSymbol(b, symbol)
  {
    if a == [] {
      assert a + b == b;
    } else {
      var head := if a[0].symbol == symbol then [] else [a[0]];
      assert (a + b)[0] == a[0] && (a + b)[1..] == a[1..] + b;
      WithoutSymbolAppend(a[1..], b, symbol);
      ConcatAssoc(head, WithoutSymbol(a[1..], symbol), WithoutSymbol(b, symbol));
    }
  }

  class ConfigManager {
    /** The `config` table, in row order. */
    var configRows: seq<ConfigRow>
    /** The `formulas` table, by name. */
    var formulas: map<string, Formula>
    /** The `tickers` table, in row order. */
    var tickers: seq<TickerRow>
    /** The `weight_profiles` table, by id. */
    var profiles: map<int, Profile>
    /** The `profile_weights` table, by (profile id, formula name). */
    var profileWeights: map<(int, string), real>
    /** The next AUTOINCREMENT id: ids are never handed out twice. */
    var nextProfileId: int
    /** The JSON codec used for the `value` column. */
    const codec: Codec

    ghost predicate Valid()
      reads this
    {
      && DistinctKeys(configRows)
      && DistinctSymbols(tickers)
      && DistinctNames(profiles)
      && AtMostOneActive(profiles)
      && nextProfileId >= 1
      && forall id :: id in profiles ==> 1 <= id < nextProfileId
    }

    /** A store whose tables have just been created. */
    constructor (codec: Codec)
      ensures Valid()
      ensures configRows == [] && formulas == map[] && tickers == []
      ensures profiles == map[] && profileWeights == map[] && nextProfileId == 1
      ensures this.codec == codec
    {
      configRows := [];
      formulas := map[];
      tickers := [];
      profiles := map[];
      profileWeights := map[];
      nextProfileId := 1;
      this.codec := codec;
    }

    /**
     * `get_config`: defaults, then the override rows in order through the nested walk, then
     * the formulas and the enabled tickers. None where Python raises.
     */
    method GetConfig(yaml: Config) returns (r: Option<Config>)
      ensures r == Resolve(yaml, configRows, formulas, tickers, codec)
    {
      var defaults := WithDefaults(yaml);
      if defaults.None? {
        return None;
      }
      var config, aborted := ReadOverrides(defaults.value);
      if aborted {
        return Some(config);
      }
      var tables := ReadTables(config);
      r := Some(tables);
    }

    /** The table stages of `get_config`: the formulas when there are any, then the enabled tickers. */
    method ReadTables(c: Config) returns (r: Config)
      ensures r == WithTables(c, formulas, tickers)
    {
      r := c;
      var texts, weights := ReadFormulas();
      FormulaTextsEmpty(formulas);
      if |texts| > 0 {
        r := r["formulas" := Map(texts)]["formula_weights" := Map(weights)];
      }
      assert r == if |formulas| == 0 then c
        else c["formulas" := Map(FormulaTexts(formulas))]["formula_weights" := Map(FormulaWeights(formulas))];
      var syms := ReadEnabledTickers();
      if syms != [] {
        r := r["tickers" := SymbolList(syms)];
      }
    }

    /** The override loop of `get_config`, stopping at the first row whose walk raises. */
    method ReadOverrides(start: Config) returns (config: Config, aborted: bool)
      ensures Overridden(config, aborted) == ApplyOverrides(start, configRows, codec)
    {
      config := start;
      var i := 0;
      while i < |configRows|
        invariant 0 <= i <= |configRows|
        invariant ApplyOverrides(config, configRows[i..], codec) == ApplyOverrides(start, configRows, codec)
      {
        var row := configRows[i];
        assert configRows[i..][0] == row && configRows[i..][1..] == configRows[i + 1..];
        var parsed := codec.decode(row.value);
        if parsed.None? {
          config := config[row.key := Str(row.value)];
        } else if '.' in row.key {
          var walked := AssignPath(config, Split(row.key), parsed.value);
          if walked.None? {
            return config, true;
          }
          config := walked.value;
        } else {
          config := config[row.key := parsed.value];
        }
        i := i + 1;
      }
      aborted := false;
    }

    /** The formulas loop of `get_config`: name to text and name to weight. */
    method ReadFormulas() returns (texts: Config, weights: Config)
      ensures texts == FormulaTexts(formulas) && weights == FormulaWeights(formulas)
    {
      texts, weights := map[], map[];
      var todo := formulas.Keys;
      while todo != {}
        invariant todo <= formulas.Keys
        invariant forall n :: n in texts <==> n in formulas && n !in todo
        invariant forall n :: n in weights <==> n in formulas && n !in todo
        invariant forall n :: n in texts ==> texts[n] == Str(formulas[n].formula)
        invariant forall n :: n in weights ==> weights[n] == Num(formulas[n].weight)
        decreases |todo|
      {
        var name :| name in todo;
        texts := texts[name := Str(formulas[name].formula)];
        weights := weights[name := Num(formulas[name].weight)];
        todo := todo - {name};
      }
      assert texts.Keys == FormulaTexts(formulas).Keys;
      assert weights.Keys == FormulaWeights(formulas).Keys;
    }

    /** The enabled symbols in table order, as `get_config` reads them. */
    method ReadEnabledTickers() returns (syms: seq<string>)
      ensures syms == Symbols(tickers, true)
    {
      syms := [];
      var j := 0;
      while j < |tickers|
        invariant 0 <= j <= |tickers|
        invariant syms == Symbols(tickers[..j], true)
      {
        assert tickers[..j + 1][..j] == tickers[..j];
        if tickers[j].enabled {
          syms := syms + [tickers[j].symbol];
        }
        j := j + 1;
      }
      assert tickers[..|tickers|] == tickers;
    }

    /**
     * `get_config_value`: the value at the key's path (a plain key is a path of one piece)
     * when every piece names an entry of a dictionary, `default` otherwise.
     */
    method GetConfigValue(yaml: Config, key: string, default: Value) returns (r: Option<Value>)
      ensures Resolve(yaml, configRows, formulas, tickers, codec).None? ==> r.None?
      ensures Resolve(yaml, configRows, formulas, tickers, codec).Some? ==>
        r == Some(Get(Map(Resolve(yaml, configRows, formulas, tickers, codec).value), Split(key)).GetOr(default))
    {
      var resolved := GetConfig(yaml);
      if resolved.None? {
        return None;
      }
      var config := resolved.value;
      if '.' in key {
        var found := Lookup(Map(config), Split(key));
        return Some(found.GetOr(default));
      }
      SplitSingle(key);
      GetOne(config, key);
      r := Some(if key in config then config[key] else default);
    }

    /** `set_config_value`: INSERT OR REPLACE of the row, the value encoded unless it is a string. */
    method SetConfigValue(key: string, value: Value, description: string)
      requires Valid()
      modifies this
      ensures Valid()
      ensures configRows == WithoutKey(old(configRows), key) + [ConfigRow(key, StoredText(value, codec), description)]
      ensures formulas == old(formulas) && tickers == old(tickers)
      ensures profiles == old(profiles) && profileWeights == old(profileWeights) && nextProfileId == old(nextProfileId)
    {
      var row := ConfigRow(key, StoredText(value, codec), description);
      UpsertKeepsKeysDistinct(configRows, row);
      configRows := WithoutKey(configRows, key) + [row];
    }

    /** `set_formula`: INSERT OR REPLACE of the formula row. */
    method SetFormula(name: string, formula: string, weight: real, description: string)
      requires Valid()
      modifies this
      ensures Valid()
      ensures formulas == old(formulas)[name := Formula(formula, weight, description)]
      ensures configRows == old(configRows) && tickers == old(tickers)
      ensures profiles == old(profiles) && profileWeights == old(profileWeights) && nextProfileId == old(nextProfileId)
    {
      formulas := formulas[name := Formula(formula, weight, description)];
    }

    /** `set_formula_weight`: an UPDATE, so a missing formula is not created. */
    method SetFormulaWeight(name: string, weight: real)
      requires Valid()
      modifies this
      ensures Valid()
      ensures formulas == if name in old(formulas) then old(formulas)[name := old(formulas)[name].(weight := weight)] else old(formulas)
      ensures configRows == old(configRows) && tickers == old(tickers)
      ensures profiles == old(profiles) && profileWeights == old(profileWeights) && nextProfileId == old(nextProfileId)
    {
      if name in formulas {
        formulas := formulas[name := formulas[name].(weight := weight)];
      }
    }

    /** `delete_formula`. */
    method DeleteFormula(name: string)
      requires Valid()
      modifies this
      ensures Valid()
      ensures formulas == old(formulas) - {name}
      ensures configRows == old(configRows) && tickers == old(tickers)
      ensures profiles == old(profiles) && profileWeights == old(profileWeights) && nextProfileId == old(nextProfileId)
    {
      formulas := formulas - {name};
    }

    /** `add_ticker`: INSERT OR REPLACE, so an existing row is re-enabled and moved to the end. */
    method AddTicker(symbol: string)
      requires Valid()
      modifies this
      ensures Valid()
      ensures tickers == WithoutSymbol(old(tickers), symbol) + [TickerRow(symbol, true)]
      ensures configRows == old(configRows) && formulas == old(formulas)
      ensures profiles == old(profiles) && profileWeights == old(profileWeights) && nextProfileId == old(nextProfileId)
    {
      UpsertKeepsSymbolsDistinct(tickers, TickerRow(symbol, true));
      tickers := WithoutSymbol(tickers, symbol) + [TickerRow(symbol, true)];
    }

    /** `remove_ticker`. */
    method RemoveTicker(symbol: string)
      requires Valid()
      modifies this
      ensures Valid()
      ensures tickers == WithoutSymbol(old(tickers), symbol)
      ensures configRows == old(configRows) && formulas == old(formulas)
      ensures profiles == old(profiles) && profileWeights == old(profileWeights) && nextProfileId == old(nextProfileId)
    {
      WithoutSymbolDistinct(tickers, symbol);
      tickers := WithoutSymbol(tickers, symbol);
    }

    /** `toggle_ticker`: an UPDATE of the flag in place; a missing symbol changes nothing. */
    method ToggleTicker(symbol: string, enabled: bool)
      requires Valid()
      modifies this
      ensures Valid()
      ensures tickers == Toggled(old(tickers), symbol, enabled)
      ensures configRows == old(configRows) && formulas == old(formulas)
      ensures profiles == old(profiles) && profileWeights == old(profileWeights) && nextProfileId == old(nextProfileId)
    {
      tickers := Toggled(tickers, symbol, enabled);
    }

    /**
     * `get_tickers`: the symbols of the (enabled) rows; when there are none, the YAML's
     * `tickers` entry, or an empty list.
     */
    function GetTickers(yaml: Config, enabledOnly: bool): (r: Value)
      reads this
      ensures Symbols(tickers, enabledOnly) != [] ==> r.List?
      ensures Symbols(tickers, enabledOnly) != [] ==>
        forall s :: Str(s) in r.items <==> exists i :: 0 <= i < |tickers| && (tickers[i].enabled || !enabledOnly) && tickers[i].symbol == s
      ensures (forall i :: 0 <= i < |tickers| ==> enabledOnly && !tickers[i].enabled) ==>
        r == if "tickers" in yaml then yaml["tickers"] else List([])
    {
      var syms := Symbols(tickers, enabledOnly);
      if syms != [] then
        assert syms[0] in syms;
        var r := SymbolList(syms);
        assert forall s :: Str(s) in r.items <==> s in syms;
        r
      else if "tickers" in yaml then yaml["tickers"] else List([])
    }

    /** `create_weight_profile`: a new inactive profile under a fresh id; a name in use raises. */
    method CreateWeightProfile(name: string, description: string) returns (id: Option<int>)
      requires Valid()
      modifies this
      ensures Valid()
      ensures (exists p :: p in old(profiles) && old(profiles)[p].name == name) ==>
        id.None? && profiles == old(profiles) && nextProfileId == old(nextProfileId)
      ensures (forall p :: p in old(profiles) ==> old(profiles)[p].name != name) ==>
        && id == Some(old(nextProfileId))
        && old(nextProfileId) !in old(profiles)
        && profiles == old(profiles)[old(nextProfileId) := Profile(name, description, false)]
        && nextProfileId == old(nextProfileId) + 1
      ensures configRows == old(configRows) && formulas == old(formulas) && tickers == old(tickers)
      ensures profileWeights == old(profileWeights)
    {
      if exists p :: p in profiles && profiles[p].name == name {
        return None;
      }
      id := Some(nextProfileId);
      profiles := profiles[nextProfileId := Profile(name, description, false)];
      nextProfileId := nextProfileId + 1;
    }

    /** `get_active_profile`: the active profile with its id, if any. */
    method GetActiveProfile() returns (r: Option<(int, Profile)>)
      requires Valid()
      ensures r.Some? <==> exists id :: id in profiles && profiles[id].active
      ensures r.Some? ==> r.value.0 in profiles && profiles[r.value.0] == r.value.1 && r.value.1.active
    {
      if exists id :: id in profiles && profiles[id].active {
        var id :| id in profiles && profiles[id].active;
        return Some((id, profiles[id]));
      }
      return None;
    }

    /**
     * `set_active_profile`: deactivate every profile, activate `id` if it exists, then copy the
     * weights stored under `id` into the formulas that exist.
     */
    method SetActiveProfile(id: int)
      requires Valid()
      modifies this
      ensures Valid()
      ensures profiles == Activate(old(profiles), id)
      ensures formulas == Activated(old(formulas), WeightsOf(old(profileWeights), id))
      ensures configRows == old(configRows) && tickers == old(tickers)
      ensures profileWeights == old(profileWeights) && nextProfileId == old(nextProfileId)
    {
      profiles := Activate(profiles, id);
      var w := WeightsOf(profileWeights, id);
      var todo := w.Keys;
      while todo != {}
        invariant todo <= w.Keys
        invariant profiles == Activate(old(profiles), id)
        invariant configRows == old(configRows) && tickers == old(tickers)
        invariant profileWeights == old(profileWeights) && nextProfileId == old(nextProfileId)
        invariant formulas.Keys == old(formulas).Keys
        invariant forall n :: n in formulas ==>
          formulas[n] == if n in w && n !in todo then old(formulas)[n].(weight := w[n]) else old(formulas)[n]
        decreases |todo|
      {
        var name :| name in todo;
        if name in formulas {
          formulas := formulas[name := formulas[name].(weight := w[name])];
        }
        todo := todo - {name};
      }
      assert formulas == Activated(old(formulas), w);
    }

    /** `save_profile_weights`: delete the rows of `id`, then insert one row per entry of `w`. */
    method SaveProfileWeights(id: int, w: map<string, real>)
      requires Valid()
      modifies this
      ensures Valid()
      ensures profileWeights == Replaced(old(profileWeights), id, w)
      ensures configRows == old(configRows) && formulas == old(formulas) && tickers == old(tickers)
      ensures profiles == old(profiles) && nextProfileId == old(nextProfileId)
    {
      profileWeights := map k | k in profileWeights && k.0 != id :: profileWeights[k];
      var todo := w.Keys;
      while todo != {}
        invariant todo <= w.Keys
        invariant configRows == old(configRows) && formulas == old(formulas) && tickers == old(tickers)
        invariant profiles == old(profiles) && nextProfileId == old(nextProfileId)
        invariant forall k: (int, string) :: k in profileWeights <==>
          (k in old(profileWeights) && k.0 != id) || (k.0 == id && k.1 in w && k.1 !in todo)
        invariant forall k: (int, string) :: k in profileWeights ==> profileWeights[k] == if k.0 == id then w[k.1] else old(profileWeights)[k]
        decreases |todo|
      {
        var name :| name in todo;
        profileWeights := profileWeights[(id, name) := w[name]];
        todo := todo - {name};
      }
      assert profileWeights == Replaced(old(profileWeights), id, w);
    }

    /** `get_profile_weights`. */
    function GetProfileWeights(id: int): (w: map<string, real>)
      reads this
      ensures forall n :: n in w <==> (id, n) in profileWeights
      ensures forall n :: n in w ==> w[n] == profileWeights[(id, n)]
    {
      WeightsOf(profileWeights, id)
    }

    /** `delete_weight_profile`: the profile row only; its weights stay (foreign keys are off). */
    method DeleteWeightProfile(id: int)
      requires Valid()
      modifies this
      ensures Valid()
      ensures profiles == old(profiles) - {id}
      ensures profileWeights == old(profileWeights)
      ensures configRows == old(configRows) && formulas == old(formulas) && tickers == old(tickers)
      ensures nextProfileId == old(nextProfileId)
    {
      profiles := profiles - {id};
    }

    /** `save_current_weights_to_profile`: the formulas' current weights become the profile's. */
    method SaveCurrentWeightsToProfile(id: int)
      requires Valid()
      modifies this
      ensures Valid()
      ensures profileWeights == Replaced(old(profileWeights), id, CurrentWeights(old(formulas)))
      ensures configRows == old(configRows) && formulas == old(formulas) && tickers == old(tickers)
      ensures profiles == old(profiles) && nextProfileId == old(nextProfileId)
    {
      var weights := CurrentWeights(formulas);
      SaveProfileWeights(id, weights);
    }

    /**
     * `save_current_weights_to_profile` followed by `set_active_profile` on the same id leaves
     * every formula as it was.
     */
    method SaveThenActivate(id: int)
      requires Valid()
      modifies this
      ensures Valid()
      ensures formulas == old(formulas)
      ensures profiles == Activate(old(profiles), id)
    {
      SaveCurrentWeightsToProfile(id);
      SaveCurrentThenActivate(formulas, old(profileWeights), id);
      SetActiveProfile(id);
    }

    /**
     * `update_profile_info`: rename and/or redescribe an existing profile. A new name carried by
     * another profile raises (false) and nothing changes; an unknown id changes nothing.
     */
    method UpdateProfileInfo(id: int, name: Option<string>, description: Option<string>) returns (ok: bool)
      requires Valid()
      modifies this
      ensures Valid()
      ensures ok <==> !(id in old(profiles) && name.Some? && NameTaken(old(profiles), name.value, id))
      ensures !ok || id !in old(profiles) ==> profiles == old(profiles)
      ensures ok && id in old(profiles) ==>
        profiles == old(profiles)[id := old(profiles)[id].(
          name := name.GetOr(old(profiles)[id].name),
          description := description.GetOr(old(profiles)[id].description))]
      ensures configRows == old(configRows) && formulas == old(formulas) && tickers == old(tickers)
      ensures profileWeights == old(profileWeights) && nextProfileId == old(nextProfileId)
    {
      if id !in profiles {
        return true;
      }
      if name.Some? {
        if NameTaken(profiles, name.value, id) {
          return false;
        }
        profiles := profiles[id := profiles[id].(name := name.value)];
      }
      if description.Some? {
        profiles := profiles[id := profiles[id].(description := description.value)];
      }
      ok := true;
    }
  }
}
