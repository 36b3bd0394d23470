/**
 * `api/variables2.py`, the store the package exports as `Variables`. It keeps
 * the same kinds of tiers as the full version, but in one fixed order
 * (environment, local overlay, constructor sources, defaults), appends added
 * sources after the defaults, probes each source with `in` before indexing it,
 * and never records keys on a read.
 */
module VariablesV2 {
  import opened Base
  import opened Text
  import opened PyValues
  import Parsing
  import opened VariablesV1

  /** What `key in source` followed by `source[key]` yields for one source. */
  function Probe(src: Source, t: Tables, key: string): Option<Value> {
    match src
    case Added(Nested(answer, _, holds)) => if holds(key) then Some(answer(key)) else None
    case _ => LookupIn(src, t, key)
  }

  /** The scan of `__getitem__`: the first source that holds the key wins. */
  function Scan(srcs: seq<Source>, t: Tables, key: string): Option<Value> {
    if srcs == [] then None
    else if Probe(srcs[0], t, key).Some? then Probe(srcs[0], t, key)
    else Scan(srcs[1..], t, key)
  }

  lemma {:induction false} ScanAppend(a: seq<Source>, b: seq<Source>, t: Tables, key: string)
    ensures Scan(a + b, t, key) == if Scan(a, t, key).Some? then Scan(a, t, key) else Scan(b, t, key)
  {
    if a != [] {
      assert (a + b)[0] == a[0];
      assert (a + b)[1..] == a[1..] + b;
      ScanAppend(a[1..], b, t, key);
    } else {
      assert a + b == b;
    }
  }

  /** Scanning a list of added sources finds nothing exactly when none of them holds the key. */
  lemma {:induction false} ScanSilent(xs: seq<AddedSource>, t: Tables, key: string)
    ensures Scan(Wrap(xs), t, key).None? <==> forall i :: 0 <= i < |xs| ==> Probe(Added(xs[i]), t, key).None?
  {
    if xs != [] {
      assert Wrap(xs) == [Added(xs[0])] + Wrap(xs[1..]);
      ScanAppend([Added(xs[0])], Wrap(xs[1..]), t, key);
      ScanSilent(xs[1..], t, key);
      assert forall i :: 1 <= i < |xs| ==> xs[1..][i - 1] == xs[i];
    }
  }

  /** The source list: environment, local overlay, constructor sources, defaults, then added sources. */
  function Layout2(given: seq<AddedSource>, appended: seq<AddedSource>): seq<Source> {
    [Environment, Local] + Wrap(given) + [Defaults] + Wrap(appended)
  }

  /** A source registered with `add_source` is only consulted for keys that no tier before it, defaults included, holds. */
  lemma DefaultsOutrankAdded(given: seq<AddedSource>, appended: seq<AddedSource>, t: Tables, key: string)
    requires Upper(key) !in t.env && key !in t.local
    requires forall i :: 0 <= i < |given| ==> Probe(Added(given[i]), t, key).None?
    ensures key in t.defaults ==> Scan(Layout2(given, appended), t, key) == Some(t.defaults[key])
    ensures key !in t.defaults ==> Scan(Layout2(given, appended), t, key) == Scan(Wrap(appended), t, key)
  {
    ScanSilent(given, t, key);
    var head: seq<Source> := [Environment, Local];
    assert Layout2(given, appended) == head + (Wrap(given) + ([Defaults] + Wrap(appended)));
    ScanAppend(head, Wrap(given) + ([Defaults] + Wrap(appended)), t, key);
    ScanAppend([Environment], [Local], t, key);
    assert head == [Environment] + [Local];
    ScanAppend(Wrap(given), [Defaults] + Wrap(appended), t, key);
    ScanAppend([Defaults], Wrap(appended), t, key);
  }

  /** The environment outranks everything, and the local overlay everything but the environment. */
  lemma EnvThenLocal(given: seq<AddedSource>, appended: seq<AddedSource>, t: Tables, key: string)
    ensures Upper(key) in t.env ==> Scan(Layout2(given, appended), t, key) == Some(Str(t.env[Upper(key)]))
    ensures Upper(key) !in t.env && key in t.local ==> Scan(Layout2(given, appended), t, key) == Some(t.local[key])
  {
    var rest := Wrap(given) + [Defaults] + Wrap(appended);
    assert Layout2(given, appended) == [Environment] + ([Local] + rest);
    ScanAppend([Environment], [Local] + rest, t, key);
    ScanAppend([Local], rest, t, key);
  }

  /** The coercion as the code looks it up: under the matched value, which must be hashable. */
  function CoerceByValue(typeFns: map<string, Option<Value -> Value>>, v: Value): (r: Result<Value, string>)
    ensures r.Err? <==> !Hashable(v)
  {
    if !Hashable(v) then Err("TypeError: unhashable type: 'list'")
    else if v.Str? && v.s in typeFns && typeFns[v.s].Some? then Ok(typeFns[v.s].value(v))
    else Ok(v)
  }

  /** The match of a read: in the local overlay only, or by scanning the sources. */
  function Match2(srcs: seq<Source>, t: Tables, key: string, localOnly: bool): Option<Value> {
    if localOnly then LookupIn(Local, t, key) else Scan(srcs, t, key)
  }

  /** `__getitem__` as written: coerced by the coercion registered under the matched value; `None` without a match. */
  function ReadAsWritten(srcs: seq<Source>, t: Tables, typeFns: map<string, Option<Value -> Value>>,
                         key: string, localOnly: bool): (r: Result<Value, string>)
    ensures Match2(srcs, t, key, localOnly).None? ==> r == Ok(Null)
    ensures Match2(srcs, t, key, localOnly).Some? ==> r == CoerceByValue(typeFns, Match2(srcs, t, key, localOnly).value)
  {
    var m := Match2(srcs, t, key, localOnly);
    if m.Some? then CoerceByValue(typeFns, m.value) else Ok(Null)
  }

  /** `__getitem__` as intended: coerced by the coercion registered under the key; `None` without a match. */
  function Read2(srcs: seq<Source>, t: Tables, typeFns: map<string, Option<Value -> Value>>,
                 key: string, localOnly: bool): (r: Value)
    ensures Match2(srcs, t, key, localOnly).None? ==> r == Null
    ensures (Match2(srcs, t, key, localOnly).Some? && key in typeFns && typeFns[key].Some?)
              ==> r == typeFns[key].value(Match2(srcs, t, key, localOnly).value)
    ensures (Match2(srcs, t, key, localOnly).Some? && (key !in typeFns || typeFns[key].None?))
              ==> r == Match2(srcs, t, key, localOnly).value
  {
    var m := Match2(srcs, t, key, localOnly);
    if m.Some? then Coerce(typeFns, key, m.value) else Null
  }

  /** `ext_parse_bool` used as a coercion. */
  function ParseBoolCoercion(v: Value): Value {
    Bool(Parsing.ParseBool(v))
  }

  /**
   * With `environ('SAF_INSTALL_SHUTDOWN_HOOKS', type_fn=ext_parse_bool)` and the
   * environment holding `false`, the read as written returns the truthy string
   * `'false'`, while coercing by key gives `False`.
   */
  lemma CoercionByValueCounterexample()
    ensures var key := "SAF_INSTALL_SHUTDOWN_HOOKS";
      var t := Tables(map[key := "false"], map[], map[]);
      var fns := map[key := Some(ParseBoolCoercion)];
      var srcs := Layout2([], []);
      ReadAsWritten(srcs, t, fns, key, false) == Ok(Str("false"))
      && Truthy(Str("false"))
      && Read2(srcs, t, fns, key, false) == Bool(false)
  {
    var key := "SAF_INSTALL_SHUTDOWN_HOOKS";
    var t := Tables(map[key := "false"], map[], map[]);
    assert Upper(key) == key;
    EnvThenLocal([], [], t, key);
    Parsing.ParseBoolFalseWords();
  }

  /** As written, a list value that any tier answers makes the read raise. */
  lemma ListValueRaises(srcs: seq<Source>, t: Tables, typeFns: map<string, Option<Value -> Value>>, key: string, items: seq<Value>)
    requires Match2(srcs, t, key, false) == Some(List(items))
    ensures ReadAsWritten(srcs, t, typeFns, key, false).Err?
    ensures Read2(srcs, t, typeFns, key, false) == Coerce(typeFns, key, List(items))
  {
  }

  /** `__contains__`: the key is lower-cased, then looked for among the known keys and the (upper-casing) environment. */
  predicate ContainsKey(keys: set<string>, env: map<string, string>, key: string) {
    Lower(key) in keys || Upper(Lower(key)) in env
  }

  /** The test depends only on the lower-cased key, and the environment part only on the upper-cased one. */
  lemma ContainsIgnoresCase(keys: set<string>, env: map<string, string>, key: string)
    ensures ContainsKey(keys, env, key) == ContainsKey(keys, env, Lower(key))
    ensures ContainsKey(keys, env, key) <==> Lower(key) in keys || Upper(key) in env
  {
    LowerIdempotent(key);
    UpperOfLower(key);
  }

  /** A known key with an upper-case letter, stored verbatim, is not reported as contained unless the environment has it. */
  lemma ContainsMissesMixedCaseKeys(keys: set<string>, env: map<string, string>, key: string)
    requires key in keys && Lower(key) !in keys && Upper(key) !in env
    ensures !ContainsKey(keys, env, key)
  {
    UpperOfLower(key);
  }

  /** The names in `names` that start with `ps`. */
  function NamesWithPrefix(names: set<string>, ps: string): (r: set<string>)
    ensures forall k :: k in r <==> k in names && StartsWith(k, ps)
  {
    set k | k in names && StartsWith(k, ps)
  }

  /** The result names a prefix query over `keys` produces. */
  function ByPrefixNames(keys: set<string>, ps: string, dropPrefix: bool, keyLower: bool): (r: set<string>)
    ensures forall q :: q in r <==> exists k :: k in keys && StartsWith(k, ps) && KeyFilter(k, ps, dropPrefix, keyLower) == q
  {
    set k | k in keys && StartsWith(k, ps) :: KeyFilter(k, ps, dropPrefix, keyLower)
  }

  class Variables2 {
    const env: map<string, string>
    var local: map<string, Value>
    var defaults: map<string, Value>
    var typeFns: map<string, Option<Value -> Value>>
    var keys: set<string>
    var sources: seq<Source>
    /** The sources given to the constructor and those added later, in order. */
    ghost var given: seq<AddedSource>
    ghost var appended: seq<AddedSource>

    ghost predicate Valid()
      reads this
    {
      sources == Layout2(given, appended)
    }

    function State(): Tables
      reads this
    {
      Tables(env, local, defaults)
    }

    /** What a read of `key` returns (coercion by key). */
    function Lookup(key: string, localOnly: bool): Value
      reads this
    {
      Read2(sources, State(), typeFns, key, localOnly)
    }

    /** `Variables2(sources)`: nothing is known and the constructor sources' keys are not absorbed. */
    constructor(srcs: seq<AddedSource>, environment: map<string, string>)
      ensures Valid()
      ensures env == environment && given == srcs && appended == []
      ensures local == map[] && defaults == map[] && typeFns == map[] && keys == {}
    {
      env := environment;
      local := map[];
      defaults := map[];
      typeFns := map[];
      keys := {};
      sources := Layout2(srcs, []);
      given := srcs;
      appended := [];
    }

    /** The loop of `__getitem__`: probe each source in order and stop at the first that holds the key. */
    method ScanSources(key: string) returns (m: Option<Value>)
      ensures m == Scan(sources, State(), key)
    {
      m := None;
      var i := 0;
      while i < |sources|
        invariant 0 <= i <= |sources|
        invariant Scan(sources, State(), key) == Scan(sources[i..], State(), key)
      {
        assert sources[i..][1..] == sources[i + 1..];
        var hit := Probe(sources[i], State(), key);
        if hit.Some? {
          return hit;
        }
        i := i + 1;
      }
    }

    /** `__getitem__`/`get` with the coercion looked up under the key; the state does not change. */
    method Get(key: string, localOnly: bool) returns (r: Value)
      ensures r == Lookup(key, localOnly)
    {
      var m: Option<Value>;
      if localOnly {
        m := if key in local then Some(local[key]) else None;
      } else {
        m := ScanSources(key);
      }
      r := if m.Some? then Coerce(typeFns, key, m.value) else Null;
    }

    /** `__getitem__`/`get` as written: the coercion is looked up under the matched value. */
    method GetAsWritten(key: string, localOnly: bool) returns (r: Result<Value, string>)
      ensures r == ReadAsWritten(sources, State(), typeFns, key, localOnly)
    {
      var m: Option<Value>;
      if localOnly {
        m := if key in local then Some(local[key]) else None;
      } else {
        m := ScanSources(key);
      }
      r := if m.Some? then CoerceByValue(typeFns, m.value) else Ok(Null);
    }

    /**
     * `environ(key, environment_variable, default, type_fn)`: a non-empty
     * `environment_variable` replaces the key; a `None` default or coercion is
     * not registered; the key is always recorded.
     */
    method Environ(key: string, environmentVariable: string, default: Value, typeFn: Option<Value -> Value>)
      returns (r: Value)
      modifies this
      ensures var k := if environmentVariable != "" then environmentVariable else key;
        && defaults == (if default != Null then old(defaults)[k := default] else old(defaults))
        && typeFns == (if typeFn.Some? then old(typeFns)[k := typeFn] else old(typeFns))
        && keys == old(keys) + {k}
        && r == Lookup(k, false)
      ensures local == old(local) && sources == old(sources) && given == old(given) && appended == old(appended)
    {
      var k := if environmentVariable != "" then environmentVariable else key;
      if default != Null {
        defaults := defaults[k := default];
      }
      if typeFn.Some? {
        typeFns := typeFns[k := typeFn];
      }
      keys := keys + {k};
      r := Get(k, false);
    }

    /** `set_type_fn(key, type_fn)`. */
    method SetTypeFn(key: string, typeFn: Option<Value -> Value>)
      modifies this
      ensures typeFns == old(typeFns)[key := typeFn]
      ensures local == old(local) && defaults == old(defaults) && keys == old(keys)
      ensures sources == old(sources) && given == old(given) && appended == old(appended)
    {
      typeFns := typeFns[key := typeFn];
    }

    /** `set(key, value)`: the key is stored verbatim in the overlay and recorded; the value is returned. */
    method Set(key: string, value: Value) returns (r: Value)
      modifies this
      ensures r == value
      ensures local == old(local)[key := value] && keys == old(keys) + {key}
      ensures defaults == old(defaults) && typeFns == old(typeFns)
      ensures sources == old(sources) && given == old(given) && appended == old(appended)
    {
      local := local[key := value];
      keys := keys + {key};
      r := value;
    }

    /** `__setitem__`: the same write as `set`, without a result. */
    method SetItem(key: string, value: Value)
      modifies this
      ensures local == old(local)[key := value] && keys == old(keys) + {key}
      ensures defaults == old(defaults) && typeFns == old(typeFns)
      ensures sources == old(sources) && given == old(given) && appended == old(appended)
    {
      var _ := Set(key, value);
    }

    /** `update(dict_values, **kwargs)`: every pair is set, and `dict_values` wins over `kwargs`. */
    method Update(dictValues: map<string, Value>, kwargs: map<string, Value>)
      modifies this
      ensures local == old(local) + (kwargs + dictValues)
      ensures keys == old(keys) + (kwargs + dictValues).Keys
      ensures defaults == old(defaults) && typeFns == old(typeFns)
      ensures sources == old(sources) && given == old(given) && appended == old(appended)
    {
      var merged := kwargs + dictValues;
      var todo := merged.Keys;
      while todo != {}
        invariant todo <= merged.Keys
        invariant local == old(local) + (merged - todo)
        invariant keys == old(keys) + (merged.Keys - todo)
        invariant defaults == old(defaults) && typeFns == old(typeFns)
        invariant sources == old(sources) && given == old(given) && appended == old(appended)
        decreases todo
      {
        var k :| k in todo;
        DrainStep(old(local), merged, todo, k);
        SetItem(k, merged[k]);
        todo := todo - {k};
      }
      assert merged - todo == merged;
    }

    /** `get_or_set(key, default_fn)`: `default_fn` runs only for a key absent from the overlay; the key is not recorded. */
    method GetOrSet(key: string, defaultFn: () -> Value) returns (r: Value, called: bool)
      modifies this
      ensures called <==> key !in old(local)
      ensures r == if called then defaultFn() else old(local)[key]
      ensures local == old(local)[key := r]
      ensures defaults == old(defaults) && typeFns == old(typeFns) && keys == old(keys)
      ensures sources == old(sources) && given == old(given) && appended == old(appended)
    {
      if key in local {
        return local[key], false;
      }
      r := defaultFn();
      called := true;
      local := local[key := r];
    }

    /** `add_source(src)`: appended after the defaults tier; no keys are absorbed. */
    method AddSource(src: AddedSource)
      requires Valid()
      modifies this
      ensures Valid()
      ensures sources == old(sources) + [Added(src)]
      ensures given == old(given) && appended == old(appended) + [src]
      ensures local == old(local) && defaults == old(defaults) && typeFns == old(typeFns) && keys == old(keys)
    {
      assert Wrap(appended + [src]) == Wrap(appended) + [Added(src)];
      sources := sources + [Added(src)];
      appended := appended + [src];
    }

    /** `__contains__`. */
    predicate Contains(key: string)
      reads this
    {
      ContainsKey(keys, env, key)
    }

    /**
     * `get_by_prefix(prefix, sep, drop_prefix, prefix_lower)`: one entry per
     * known key starting with the (optionally lower-cased) prefix and separator,
     * named without that prefix when `drop_prefix` is set, holding what a read of
     * that key returns.
     */
    method GetByPrefix(prefix: string, sep: string, dropPrefix: bool, prefixLower: bool)
      returns (r: map<string, Value>)
      ensures var ps := PrefixWithSep(prefix, sep, prefixLower);
        forall q :: q in r <==> exists k :: k in keys && StartsWith(k, ps) && KeyFilter(k, ps, dropPrefix, false) == q
      ensures var ps := PrefixWithSep(prefix, sep, prefixLower);
        forall q :: q in r ==> exists k :: k in keys && StartsWith(k, ps) && KeyFilter(k, ps, dropPrefix, false) == q
                                     && r[q] == Lookup(k, false)
    {
      r := QueryByPrefix(PrefixWithSep(prefix, sep, prefixLower), dropPrefix, false);
    }

    /** The comprehension of `get_by_prefix` for a prefix string `ps`, with the result names optionally lower-cased. */
    method QueryByPrefix(ps: string, dropPrefix: bool, keyLower: bool) returns (r: map<string, Value>)
      ensures r.Keys == ByPrefixNames(keys, ps, dropPrefix, keyLower)
      ensures forall q :: q in r <==> exists k :: k in keys && StartsWith(k, ps) && KeyFilter(k, ps, dropPrefix, keyLower) == q
      ensures forall q :: q in r ==> exists k :: k in keys && StartsWith(k, ps) && KeyFilter(k, ps, dropPrefix, keyLower) == q
                                                && r[q] == Lookup(k, false)
    {
      var todo := keys;
      r := map[];
      while todo != {}
        invariant todo <= keys
        invariant forall q :: q in r <==> exists k :: k in keys - todo && StartsWith(k, ps) && KeyFilter(k, ps, dropPrefix, keyLower) == q
        invariant forall q :: q in r ==> exists k :: k in keys - todo && StartsWith(k, ps) && KeyFilter(k, ps, dropPrefix, keyLower) == q
                                             && r[q] == Lookup(k, false)
        decreases todo
      {
        var k :| k in todo;
        if StartsWith(k, ps) {
          r := r[KeyFilter(k, ps, dropPrefix, keyLower) := Lookup(k, false)];
        }
        todo := todo - {k};
      }
    }

    /** The comprehension over `environ.keys()` in `import_from_env_by_prefix`: `environ(k)` records every variable named with the prefix. */
    method RecordEnvNames(ps: string)
      modifies this
      ensures keys == old(keys) + NamesWithPrefix(env.Keys, ps)
      ensures local == old(local) && defaults == old(defaults) && typeFns == old(typeFns)
      ensures sources == old(sources) && given == old(given) && appended == old(appended)
    {
      var todo := env.Keys;
      while todo != {}
        invariant todo <= env.Keys
        invariant keys == old(keys) + NamesWithPrefix(env.Keys - todo, ps)
        invariant local == old(local) && defaults == old(defaults) && typeFns == old(typeFns)
        invariant sources == old(sources) && given == old(given) && appended == old(appended)
        decreases todo
      {
        var k :| k in todo;
        assert NamesWithPrefix(env.Keys - (todo - {k}), ps)
            == NamesWithPrefix(env.Keys - todo, ps) + (if StartsWith(k, ps) then {k} else {});
        if StartsWith(k, ps) {
          var _ := Environ(k, "", Null, None);
        }
        todo := todo - {k};
      }
    }

    /**
     * `import_from_env_by_prefix(prefix, sep, drop_prefix)` as written: the
     * environment variables named `prefix + sep...` are recorded under their own
     * (upper-case) names, then `get_by_prefix` matches with the prefix
     * lower-cased, its default.
     */
    method ImportFromEnvByPrefixAsWritten(prefix: string, sep: string, dropPrefix: bool) returns (r: map<string, Value>)
      modifies this
      ensures keys == old(keys) + NamesWithPrefix(env.Keys, prefix + sep)
      ensures local == old(local) && defaults == old(defaults) && typeFns == old(typeFns)
      ensures sources == old(sources) && given == old(given) && appended == old(appended)
      ensures r.Keys == ByPrefixNames(keys, PrefixWithSep(prefix, sep, true), dropPrefix, false)
      ensures forall q :: q in r ==> exists k :: k in keys && StartsWith(k, PrefixWithSep(prefix, sep, true))
                                                && KeyFilter(k, PrefixWithSep(prefix, sep, true), dropPrefix, false) == q
                                                && r[q] == Lookup(k, false)
    {
      RecordEnvNames(prefix + sep);
      r := QueryByPrefix(PrefixWithSep(prefix, sep, true), dropPrefix, false);
    }

    /**
     * `import_from_env_by_prefix(prefix, sep, drop_prefix)` as intended: the
     * recorded names are matched with the prefix as given and the result names
     * are lower-cased, so `APP1_NAME` comes back as `name`.
     */
    method ImportFromEnvByPrefix(prefix: string, sep: string, dropPrefix: bool) returns (r: map<string, Value>)
      modifies this
      ensures keys == old(keys) + NamesWithPrefix(env.Keys, prefix + sep)
      ensures local == old(local) && defaults == old(defaults) && typeFns == old(typeFns)
      ensures sources == old(sources) && given == old(given) && appended == old(appended)
      ensures r.Keys == ByPrefixNames(keys, prefix + sep, dropPrefix, true)
      ensures forall q :: q in r ==> exists k :: k in keys && StartsWith(k, prefix + sep)
                                                && KeyFilter(k, prefix + sep, dropPrefix, true) == q && r[q] == Lookup(k, false)
    {
      RecordEnvNames(prefix + sep);
      r := QueryByPrefix(prefix + sep, dropPrefix, true);
    }

    /** `export_all_variables()`: every known key with what a read of it returns. */
    method ExportAllVariables() returns (r: map<string, Value>)
      ensures r.Keys == keys
      ensures forall k :: k in r ==> r[k] == Lookup(k, false)
    {
      var todo := keys;
      r := map[];
      while todo != {}
        invariant todo <= keys
        invariant r.Keys == keys - todo
        invariant forall k :: k in r ==> r[k] == Lookup(k, false)
        decreases todo
      {
        var k :| k in todo;
        r := r[k := Lookup(k, false)];
        todo := todo - {k};
      }
    }
  }

  /** With the prefix dropped, distinct known keys under one prefix give distinct result names, so no entry is lost. */
  lemma DroppedPrefixNamesDistinct(k1: string, k2: string, ps: string)
    requires StartsWith(k1, ps) && StartsWith(k2, ps) && k1 != k2
    ensures KeyFilter(k1, ps, true, false) != KeyFilter(k2, ps, true, false)
  {
    KeyFilterRestores(k1, ps);
    KeyFilterRestores(k2, ps);
  }

  /**
   * The recorded names are upper-case, so the as-written query, which looks
   * for `my_strategy_`, finds none of them; the intended query yields the
   * lower-cased remainders.
   */
  lemma PrefixCaseCounterexample()
    ensures ByPrefixNames({"MY_STRATEGY_TYPE", "MY_STRATEGY_OPTION1"}, PrefixWithSep("MY_STRATEGY", "_", true), true, false) == {}
    ensures ByPrefixNames({"MY_STRATEGY_TYPE", "MY_STRATEGY_OPTION1"}, "MY_STRATEGY_", true, true) == {"type", "option1"}
  {
    var lowered := PrefixWithSep("MY_STRATEGY", "_", true);
    assert lowered[0] == 'm';
    assert !StartsWith("MY_STRATEGY_TYPE", lowered) && !StartsWith("MY_STRATEGY_OPTION1", lowered);
    var ps := "MY_STRATEGY_";
    KeyFilterRestores("MY_STRATEGY_TYPE", ps);
    KeyFilterRestores("MY_STRATEGY_OPTION1", ps);
    assert "MY_STRATEGY_TYPE"[|ps|..] == "TYPE";
    assert "MY_STRATEGY_OPTION1"[|ps|..] == "OPTION1";
    assert Lower("TYPE") == "type";
    assert Lower("OPTION1") == "option1";
  }

  /** `load_strategy`'s import on a fresh store whose environment configures a strategy, as written and as intended. */
  method StrategyImportScenario() returns (asWritten: map<string, Value>, corrected: map<string, Value>)
    ensures asWritten == map[]
    ensures corrected.Keys == {"type", "option1"}
  {
    var environment := map["MY_STRATEGY_TYPE" := "tests.Strategy", "MY_STRATEGY_OPTION1" := "value1"];
    var names: set<string> := {"MY_STRATEGY_TYPE", "MY_STRATEGY_OPTION1"};
    assert environment.Keys == names;
    assert StartsWith("MY_STRATEGY_TYPE", "MY_STRATEGY_") && StartsWith("MY_STRATEGY_OPTION1", "MY_STRATEGY_");
    assert NamesWithPrefix(environment.Keys, "MY_STRATEGY" + "_") == names;
    PrefixCaseCounterexample();
    var v := new Variables2([], environment);
    asWritten := v.ImportFromEnvByPrefixAsWritten("MY_STRATEGY", "_", true);
    assert v.keys == names;
    assert asWritten.Keys == {};
    var w := new Variables2([], environment);
    corrected := w.ImportFromEnvByPrefix("MY_STRATEGY", "_", true);
    assert w.keys == names;
  }
}
