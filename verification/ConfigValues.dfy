/**
 * Configuration values as a tagged tree (what `yaml.safe_load` and `json.loads` produce),
 * dotted-key splitting, and the two nested-dictionary walks of core/config.py:
 * the override walk of `get_config` and the lookup walk of `get_config_value`.
 */
module ConfigValues {
  import opened Wrappers

  datatype Value =
    | Null
    | Bool(b: bool)
    | Num(n: real)
    | Str(s: string)
    | List(items: seq<Value>)
    | Map(entries: map<string, Value>)

  /** A top-level configuration dictionary. */
  type Config = map<string, Value>

  /**
   * The JSON codec (`json.dumps` / `json.loads`), kept abstract: `decode` answers None where
   * `json.loads` raises `JSONDecodeError`.
   */
  datatype Codec = Codec(encode: Value -> string, decode: string -> Option<Value>)

  /** `key.split(".")`. */
  function Split(key: string): (parts: seq<string>)
    ensures |parts| >= 1
  {
    if |key| == 0 then [""]
    else
      var rest := Split(key[1..]);
      if key[0] == '.' then [""] + rest else [[key[0]] + rest[0]] + rest[1..]
  }

  /** `".".join(parts)`. */
  function Join(parts: seq<string>): string
    requires |parts| >= 1
  {
    if |parts| == 1 then parts[0] else parts[0] + "." + Join(parts[1..])
  }

  /** Joining the pieces of a split gives the key back. */
  lemma {:induction false} JoinSplit(key: string)
    ensures Join(Split(key)) == key
  {
    if |key| > 0 {
      var rest := Split(key[1..]);
      JoinSplit(key[1..]);
      if key[0] == '.' {
        assert Split(key)[1..] == rest;
      } else {
        var parts := Split(key);
        if |rest| == 1 {
          assert parts == [[key[0]] + rest[0]];
        } else {
          assert parts[1..] == rest[1..];
          assert Join(rest) == rest[0] + "." + Join(rest[1..]);
        }
      }
      assert key == [key[0]] + key[1..];
    }
  }

  /** No piece of a split contains a dot. */
  lemma {:induction false} SplitPiecesHaveNoDot(key: string)
    ensures forall i :: 0 <= i < |Split(key)| ==> '.' !in Split(key)[i]
  {
    if |key| > 0 {
      SplitPiecesHaveNoDot(key[1..]);
      var rest := Split(key[1..]);
      if key[0] != '.' {
        assert forall i :: 1 <= i < |Split(key)| ==> Split(key)[i] == rest[i];
      } else {
        assert forall i :: 1 <= i < |Split(key)| ==> Split(key)[i] == rest[i - 1];
      }
    }
  }

  /** A key splits into a single piece, itself, exactly when it has no dot. */
  lemma {:induction false} SplitSingle(key: string)
    ensures '.' !in key <==> Split(key) == [key]
  {
    if |key| > 0 {
      SplitSingle(key[1..]);
      var rest := Split(key[1..]);
      assert key == [key[0]] + key[1..];
      assert '.' in key <==> key[0] == '.' || '.' in key[1..];
      if key[0] == '.' {
        assert |Split(key)| >= 2;
      } else if '.' in key[1..] {
        assert rest != [key[1..]];
        assert Split(key) == [[key[0]] + rest[0]] + rest[1..];
        if |rest| == 1 {
          assert rest[0] != key[1..];
          var first := [key[0]] + rest[0];
          assert first[1..] == rest[0] != key[1..];
          assert Split(key)[0] == first;
        } else {
          assert |Split(key)| >= 2;
        }
      } else {
        assert Split(key) == [[key[0]] + key[1..]];
      }
    }
  }

  /** Splitting a join of dot-free pieces gives the pieces back. */
  lemma {:induction false} SplitJoin(parts: seq<string>)
    requires |parts| >= 1
    requires forall i :: 0 <= i < |parts| ==> '.' !in parts[i]
    ensures Split(Join(parts)) == parts
  {
    if |parts| == 1 {
      SplitSingle(parts[0]);
    } else {
      SplitJoin(parts[1..]);
      SplitDotted(parts[0], Join(parts[1..]));
      assert parts == [parts[0]] + parts[1..];
    }
  }

  lemma {:induction false} SplitDotted(head: string, tail: string)
    requires '.' !in head
    ensures Split(head + "." + tail) == [head] + Split(tail)
  {
    if |head| == 0 {
      assert head + "." + tail == ['.'] + tail;
      assert (['.'] + tail)[1..] == tail;
    } else {
      SplitDotted(head[1..], tail);
      assert (head + "." + tail)[1..] == head[1..] + "." + tail;
      assert head == [head[0]] + head[1..];
    }
  }

  /**
   * The lookup walk of `get_config_value`: follow `path` through nested dictionaries;
   * None as soon as a step meets a non-dictionary or a missing key.
   */
  function Get(v: Value, path: seq<string>): (r: Option<Value>)
    ensures path != [] && r.Some? ==> v.Map? && path[0] in v.entries
    decreases |path|
  {
    if path == [] then Some(v)
    else if v.Map? && path[0] in v.entries then Get(v.entries[path[0]], path[1..])
    else None
  }

  /** A path of one piece is a plain dictionary lookup. */
  lemma GetOne(m: map<string, Value>, key: string)
    ensures Get(Map(m), [key]) == if key in m then Some(m[key]) else None
  {
    if key in m {
      assert Get(Map(m), [key]) == Get(m[key], []);
    }
  }

  /**
   * The lookup loop of `get_config_value`: step into the entry each piece names while the
   * current value is a dictionary holding it; None as soon as one is missing.
   */
  method Lookup(v: Value, path: seq<string>) returns (r: Option<Value>)
    ensures r == Get(v, path)
  {
    var current := v;
    var i := 0;
    while i < |path|
      invariant 0 <= i <= |path|
      invariant Get(v, path) == Get(current, path[i..])
    {
      assert path[i..][0] == path[i] && path[i..][1..] == path[i + 1..];
      if current.Map? && path[i] in current.entries {
        current := current.entries[path[i]];
      } else {
        return None;
      }
      i := i + 1;
    }
    assert path[|path|..] == [];
    r := Some(current);
  }

  /**
   * The override walk of `get_config`: descend `parts[..|parts|-1]`, creating an empty
   * dictionary for each missing step, then assign the last piece. None where Python raises
   * `TypeError`: an existing value met on the way, or the final container, is not a dictionary.
   */
  function SetPath(m: Config, parts: seq<string>, v: Value): Option<Config>
    requires |parts| >= 1
    decreases |parts|
  {
    if |parts| == 1 then Some(m[parts[0] := v])
    else
      var child := if parts[0] in m then m[parts[0]] else Map(map[]);
      if !child.Map? then None
      else
        match SetPath(child.entries, parts[1..], v)
        case None => None
        case Some(c) => Some(m[parts[0] := Map(c)])
  }

  /** A successful walk adds at most the path's first piece at the top level and removes nothing. */
  lemma SetPathKeys(m: Config, parts: seq<string>, v: Value)
    requires |parts| >= 1 && SetPath(m, parts, v).Some?
    ensures SetPath(m, parts, v).value.Keys == m.Keys + {parts[0]}
  {
  }

  /** Something along the way to the last piece exists and is not a dictionary. */
  ghost predicate Blocked(m: Config, parts: seq<string>)
  {
    exists j :: 1 <= j < |parts| && Get(Map(m), parts[..j]).Some? && !Get(Map(m), parts[..j]).value.Map?
  }

  /** The walk fails exactly when it meets an existing non-dictionary before the last piece. */
  lemma {:induction false} SetPathFailsIffBlocked(m: Config, parts: seq<string>, v: Value)
    requires |parts| >= 1
    decreases |parts|
    ensures SetPath(m, parts, v).None? <==> Blocked(m, parts)
  {
    if |parts| > 1 {
      var child := if parts[0] in m then m[parts[0]] else Map(map[]);
      assert Get(Map(m), parts[..1]) == if parts[0] in m then Some(m[parts[0]]) else None by {
        assert parts[..1][1..] == [];
      }
      if child.Map? {
        SetPathFailsIffBlocked(child.entries, parts[1..], v);
        if parts[0] in m {
          forall j | 1 <= j < |parts|
            ensures Get(Map(m), parts[..j]) == Get(child, parts[1..][..j - 1])
          {
            assert parts[..j][1..] == parts[1..][..j - 1];
          }
          if Blocked(m, parts) {
            var j :| 1 <= j < |parts| && Get(Map(m), parts[..j]).Some? && !Get(Map(m), parts[..j]).value.Map?;
            assert j > 1;
            assert Get(child, parts[1..][..j - 1]) == Get(Map(m), parts[..j]);
          }
          if Blocked(child.entries, parts[1..]) {
            var j :| 1 <= j < |parts[1..]| && Get(child, parts[1..][..j]).Some? && !Get(child, parts[1..][..j]).value.Map?;
            assert Get(Map(m), parts[..j + 1]) == Get(child, parts[1..][..j]);
          }
        } else {
          forall j | 1 <= j < |parts|
            ensures Get(Map(m), parts[..j]) == None
          {
            assert parts[..j][0] == parts[0];
          }
          assert !Blocked(m, parts);
          forall j | 1 <= j < |parts[1..]|
            ensures Get(child, parts[1..][..j]) == None
          {
            assert parts[1..][..j][0] == parts[1];
          }
          assert !Blocked(child.entries, parts[1..]);
        }
      } else {
        assert parts[0] in m;
        assert Blocked(m, parts) by {
          assert Get(Map(m), parts[..1]).Some? && !Get(Map(m), parts[..1]).value.Map?;
        }
      }
    }
  }

  /** After a successful walk the assigned value is found at the full path. */
  lemma {:induction false} SetPathReadBack(m: Config, parts: seq<string>, v: Value)
    requires |parts| >= 1 && SetPath(m, parts, v).Some?
    decreases |parts|
    ensures Get(Map(SetPath(m, parts, v).value), parts) == Some(v)
  {
    if |parts| > 1 {
      var child := if parts[0] in m then m[parts[0]] else Map(map[]);
      SetPathReadBack(child.entries, parts[1..], v);
    }
  }

  /**
   * A successful walk leaves every path that branches off the assigned one unchanged:
   * sibling entries at every level keep their values and their absence.
   */
  lemma {:induction false} SetPathKeepsSiblings(m: Config, parts: seq<string>, v: Value, q: seq<string>)
    requires |parts| >= 1 && SetPath(m, parts, v).Some?
    decreases |parts|
    requires !(q <= parts) && !(parts <= q)
    ensures Get(Map(SetPath(m, parts, v).value), q) == Get(Map(m), q)
  {
    var r := SetPath(m, parts, v).value;
    assert q != [];
    if q[0] == parts[0] {
      assert |parts| == 1 ==> parts <= q;
      assert |q| == 1 ==> q <= parts;
      var child := if parts[0] in m then m[parts[0]] else Map(map[]);
      var c := SetPath(child.entries, parts[1..], v).value;
      assert r[parts[0]] == Map(c);
      assert q[1..] <= parts[1..] ==> q <= parts;
      assert parts[1..] <= q[1..] ==> parts <= q;
      SetPathKeepsSiblings(child.entries, parts[1..], v, q[1..]);
      if parts[0] !in m {
        assert q[1..] != [];
      }
    }
  }

  /**
   * The override walk as `get_config` runs it: descend through the pieces before the last,
   * creating a missing dictionary at each step, then assign the last piece and rebuild the
   * path upward (the in-place update of the shared dictionaries, written on values).
   */
  method AssignPath(m: Config, parts: seq<string>, v: Value) returns (r: Option<Config>)
    requires |parts| >= 1
    ensures r == SetPath(m, parts, v)
  {
    var n := |parts|;
    var levels: seq<Config> := [m];
    var i := 0;
    while i < n - 1
      invariant 0 <= i <= n - 1
      invariant |levels| == i + 1 && levels[0] == m
      invariant forall k :: 0 <= k < i ==> Descend(levels[k], parts[k]) == Some(levels[k + 1])
      invariant SetPath(m, parts, v).None? <==> SetPath(levels[i], parts[i..], v).None?
    {
      SetPathStep(levels[i], parts[i..], v);
      assert parts[i..][0] == parts[i] && parts[i..][1..] == parts[i + 1..];
      var next := Descend(levels[i], parts[i]);
      if next.None? {
        return None;
      }
      levels := levels + [next.value];
      i := i + 1;
    }
    assert parts[n - 1..] == [parts[n - 1]];
    var acc := levels[n - 1][parts[n - 1] := v];
    var j := n - 1;
    while j > 0
      invariant 0 <= j <= n - 1
      invariant SetPath(levels[j], parts[j..], v) == Some(acc)
    {
      j := j - 1;
      SetPathStep(levels[j], parts[j..], v);
      assert parts[j..][0] == parts[j] && parts[j..][1..] == parts[j + 1..];
      acc := levels[j][parts[j] := Map(acc)];
    }
    r := Some(acc);
  }

  /** One step of the walk: the dictionary under `part`, a fresh one if missing, None if not a dictionary. */
  function Descend(m: Config, part: string): (r: Option<Config>)
    ensures r.None? <==> part in m && !m[part].Map?
  {
    if part !in m then Some(map[])
    else if m[part].Map? then Some(m[part].entries)
    else None
  }

  /** SetPath on two or more pieces is one Descend step followed by SetPath on the rest. */
  lemma SetPathStep(m: Config, parts: seq<string>, v: Value)
    requires |parts| >= 2
    ensures SetPath(m, parts, v) ==
      match Descend(m, parts[0])
      case None => None
      case Some(c) =>
        match SetPath(c, parts[1..], v)
        case None => None
        case Some(a) => Some(m[parts[0] := Map(a)])
  {
  }
}
