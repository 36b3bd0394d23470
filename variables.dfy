/**
 * The full configuration store of `api/variables.py`: a `Variables` object
 * keeps an ordered list of lookup sources (the process environment, a local
 * overlay, added sources and a fallback-defaults tier), a per-key coercion
 * table and the set of keys it knows about. A read scans the sources in
 * order and the first one holding the key decides the value.
 */
module VariablesV1 {
  import opened Base
  import opened Text
  import opened PyValues

  /** `is_epp`: an internal key of the form `=|name|` with a non-empty name. */
  predicate IsEpp(key: Value) {
    key.Str? && |key.s| >= 4 && StartsWith(key.s, "=|") && EndsWith(key.s, "|")
  }

  /** An epp key is exactly a string `=|` + inner + `|` whose inner part is non-empty. */
  lemma IsEppShape(s: string)
    ensures IsEpp(Str(s)) <==> exists inner :: |inner| >= 1 && s == "=|" + inner + "|"
  {
    if IsEpp(Str(s)) {
      var inner := s[2..|s| - 1];
      assert s == s[..2] + inner + s[|s| - 1..];
    }
    if exists inner :: |inner| >= 1 && s == "=|" + inner + "|" {
      var inner :| |inner| >= 1 && s == "=|" + inner + "|";
      assert s[..2] == "=|";
      assert s[|s| - 1..] == "|";
    }
  }

  /** `=||` is too short to be an epp key, and only strings are. */
  lemma IsEppExamples()
    ensures !IsEpp(Str("=||")) && IsEpp(Str("=|x|"))
    ensures !IsEpp(Str("=|test")) && !IsEpp(Null) && !IsEpp(Int(123))
  {
    assert Str("=|x|").s[..2] == "=|";
    assert Str("=|x|").s[3..] == "|";
    assert Str("=|test").s[5..] == "t";
  }

  /** The `EnvPlacement` enum: where the process environment sits among the sources. */
  datatype EnvPlacement = Top | Bottom | Ignored | Bottom2

  /** The placement argument as given: an `EnvPlacement` member or any other object. */
  datatype PlacementArg = Member(p: EnvPlacement) | NotAMember(raw: Value)

  /** A source given to the constructor or to `add_source`. */
  datatype AddedSource =
    /** A dict: it raises `KeyError` for a key it does not hold. */
    | Dict(entries: map<string, Value>)
    /**
     * Another configuration object, seen through what a read of each key
     * returns, its `keys()` and its `__contains__`. A `Variables` read never
     * raises, so to this class it answers every key.
     */
    | Nested(answer: string -> Value, known: set<string>, holds: string -> bool)

  /** One entry of the source list. */
  datatype Source = Environment | Local | Defaults | Added(src: AddedSource)

  /** The state the tiers refer to: the process environment, the local overlay and the defaults. */
  datatype Tables = Tables(env: map<string, string>, local: map<string, Value>, defaults: map<string, Value>)

  /** What `source[key]` yields, or `None` where it raises `KeyError`; the environment is looked up upper-cased. */
  function LookupIn(src: Source, t: Tables, key: string): Option<Value> {
    match src
    case Environment => if Upper(key) in t.env then Some(Str(t.env[Upper(key)])) else None
    case Local => if key in t.local then Some(t.local[key]) else None
    case Defaults => if key in t.defaults then Some(t.defaults[key]) else None
    case Added(Dict(entries)) => if key in entries then Some(entries[key]) else None
    case Added(Nested(answer, _, _)) => Some(answer(key))
  }

  /** The scan of `__getitem__`: the first source that answers wins. */
  function FirstMatch(srcs: seq<Source>, t: Tables, key: string): Option<Value> {
    if srcs == [] then None
    else if LookupIn(srcs[0], t, key).Some? then LookupIn(srcs[0], t, key)
    else FirstMatch(srcs[1..], t, key)
  }

  /** The scan finds exactly the answer of the first answering source, and nothing when none answers. */
  lemma {:induction false} FirstMatchIsFirstHit(srcs: seq<Source>, t: Tables, key: string)
    ensures FirstMatch(srcs, t, key).None? <==> forall i :: 0 <= i < |srcs| ==> LookupIn(srcs[i], t, key).None?
    ensures forall i :: 0 <= i < |srcs| && LookupIn(srcs[i], t, key).Some?
              && (forall j :: 0 <= j < i ==> LookupIn(srcs[j], t, key).None?)
              ==> FirstMatch(srcs, t, key) == LookupIn(srcs[i], t, key)
  {
    if srcs != [] {
      FirstMatchIsFirstHit(srcs[1..], t, key);
      forall i | 0 <= i < |srcs| && LookupIn(srcs[i], t, key).Some?
        && (forall j :: 0 <= j < i ==> LookupIn(srcs[j], t, key).None?)
        ensures FirstMatch(srcs, t, key) == LookupIn(srcs[i], t, key)
      {
        if i > 0 {
          assert srcs[1..][i - 1] == srcs[i];
          assert forall j :: 0 <= j < i - 1 ==> srcs[1..][j] == srcs[j + 1];
        }
      }
      if forall i :: 0 <= i < |srcs| ==> LookupIn(srcs[i], t, key).None? {
        assert forall i :: 0 <= i < |srcs[1..]| ==> srcs[1..][i] == srcs[i + 1];
      }
    }
  }

  /** Scanning two lists one after the other is scanning their concatenation. */
  lemma {:induction false} FirstMatchAppend(a: seq<Source>, b: seq<Source>, t: Tables, key: string)
    ensures FirstMatch(a + b, t, key) == if FirstMatch(a, t, key).Some? then FirstMatch(a, t, key) else FirstMatch(b, t, key)
  {
    if a != [] {
      assert (a + b)[0] == a[0];
      assert (a + b)[1..] == a[1..] + b;
      FirstMatchAppend(a[1..], b, t, key);
    } else {
      assert a + b == b;
    }
  }

  /** The added sources as entries of the source list, in the same order. */
  function Wrap(xs: seq<AddedSource>): (r: seq<Source>)
    ensures |r| == |xs|
    ensures forall i :: 0 <= i < |xs| ==> r[i] == Added(xs[i])
  {
    seq(|xs|, i requires 0 <= i < |xs| => Added(xs[i]))
  }

  /** The source list the constructor builds for each placement, around the added sources `xs`. */
  function Layout(p: EnvPlacement, xs: seq<AddedSource>): seq<Source> {
    match p
    case Top => [Environment, Local] + Wrap(xs) + [Defaults]
    case Bottom => [Local] + Wrap(xs) + [Defaults, Environment]
    case Bottom2 => [Local] + Wrap(xs) + [Environment, Defaults]
    case Ignored => [Local] + Wrap(xs) + [Defaults]
  }

  /** How many tier entries follow the added sources. */
  function BottomOffset(p: EnvPlacement): nat {
    if p == Bottom || p == Bottom2 then 2 else 1
  }

  /** The tier list that follows the added sources under placement `p`. */
  function Tail(p: EnvPlacement): seq<Source> {
    match p
    case Top => [Defaults]
    case Bottom => [Defaults, Environment]
    case Bottom2 => [Environment, Defaults]
    case Ignored => [Defaults]
  }

  /** The tier list that precedes the added sources under placement `p`. */
  function Head(p: EnvPlacement): seq<Source> {
    if p == Top then [Environment, Local] else [Local]
  }

  /**
   * Each layout is a head of tiers, then the added sources in order, then
   * `BottomOffset(p)` trailing tiers; the environment is present unless the
   * placement ignores it.
   */
  lemma LayoutShape(p: EnvPlacement, xs: seq<AddedSource>)
    ensures Layout(p, xs) == Head(p) + Wrap(xs) + Tail(p)
    ensures |Tail(p)| == BottomOffset(p)
    ensures Environment in Layout(p, xs) <==> p != Ignored
    ensures Local in Head(p) && Defaults in Tail(p)
  {
    assert Environment !in Wrap(xs) by {
      assert forall i :: 0 <= i < |xs| ==> Wrap(xs)[i] != Environment;
    }
  }

  /**
   * `add_source` inserts at index `len(sources) - bottom_offset`: the result is
   * the layout with the new source appended to the added ones, so it comes after
   * every earlier added source and nothing else moves.
   */
  lemma AddSourcePosition(p: EnvPlacement, xs: seq<AddedSource>, s: AddedSource)
    ensures |Layout(p, xs)| >= BottomOffset(p)
    ensures var l := Layout(p, xs); var at := |l| - BottomOffset(p);
            Layout(p, xs + [s]) == l[..at] + [Added(s)] + l[at..]
  {
    LayoutShape(p, xs);
    LayoutShape(p, xs + [s]);
    var l := Layout(p, xs);
    var at := |l| - BottomOffset(p);
    assert Wrap(xs + [s]) == Wrap(xs) + [Added(s)];
    assert l[..at] == Head(p) + Wrap(xs);
    assert l[at..] == Tail(p);
  }

  /** An added source that holds none of the key. */
  predicate Silent(xs: seq<AddedSource>, t: Tables, key: string) {
    forall i :: 0 <= i < |xs| ==> LookupIn(Added(xs[i]), t, key).None?
  }

  lemma {:induction false} SilentScan(xs: seq<AddedSource>, t: Tables, key: string)
    ensures FirstMatch(Wrap(xs), t, key).None? <==> Silent(xs, t, key)
  {
    FirstMatchIsFirstHit(Wrap(xs), t, key);
  }

  /**
   * The local overlay outranks every added source and the defaults; only the
   * environment under `Top` outranks it.
   */
  lemma LocalOutranks(p: EnvPlacement, xs: seq<AddedSource>, t: Tables, key: string)
    requires key in t.local
    ensures FirstMatch(Layout(p, xs), t, key)
      == if p == Top && Upper(key) in t.env then Some(Str(t.env[Upper(key)])) else Some(t.local[key])
  {
    LayoutShape(p, xs);
    FirstMatchAppend(Head(p), Wrap(xs) + Tail(p), t, key);
    if p == Top {
      assert Head(p) == [Environment] + [Local];
      FirstMatchAppend([Environment], [Local], t, key);
    }
  }

  /**
   * A key the local overlay lacks is answered by the earliest added source
   * holding it, unless the environment outranks it under `Top`.
   */
  lemma AddedSourcesInOrder(p: EnvPlacement, xs: seq<AddedSource>, t: Tables, key: string, i: nat)
    requires key !in t.local && !(p == Top && Upper(key) in t.env)
    requires i < |xs| && LookupIn(Added(xs[i]), t, key).Some?
    requires forall j :: 0 <= j < i ==> LookupIn(Added(xs[j]), t, key).None?
    ensures FirstMatch(Layout(p, xs), t, key) == LookupIn(Added(xs[i]), t, key)
  {
    LayoutShape(p, xs);
    assert Layout(p, xs) == Head(p) + (Wrap(xs) + Tail(p));
    FirstMatchIsFirstHit(Wrap(xs), t, key);
    FirstMatchAppend(Head(p), Wrap(xs) + Tail(p), t, key);
    FirstMatchAppend(Wrap(xs), Tail(p), t, key);
    if p == Top {
      FirstMatchAppend([Environment], [Local], t, key);
    }
  }

  /**
   * With the key in no overlay and no added source, the lower tiers decide:
   * the environment before the defaults under `Top` and `Bottom2`, the defaults
   * before the environment under `Bottom`, the defaults alone under `Ignored`.
   */
  lemma LowerTiers(p: EnvPlacement, xs: seq<AddedSource>, t: Tables, key: string)
    requires key !in t.local && Silent(xs, t, key)
    ensures var env := LookupIn(Environment, t, key); var dflt := LookupIn(Defaults, t, key);
      FirstMatch(Layout(p, xs), t, key) == match p
        case Top => if env.Some? then env else dflt
        case Bottom2 => if env.Some? then env else dflt
        case Bottom => if dflt.Some? then dflt else env
        case Ignored => dflt
  {
    LayoutShape(p, xs);
    assert Layout(p, xs) == Head(p) + (Wrap(xs) + Tail(p));
    SilentScan(xs, t, key);
    FirstMatchAppend(Head(p), Wrap(xs) + Tail(p), t, key);
    FirstMatchAppend(Wrap(xs), Tail(p), t, key);
    if p == Top {
      assert Head(p) == [Environment] + [Local];
      FirstMatchAppend([Environment], [Local], t, key);
    } else if p == Bottom {
      assert Tail(p) == [Defaults] + [Environment];
      FirstMatchAppend([Defaults], [Environment], t, key);
    } else if p == Bottom2 {
      assert Tail(p) == [Environment] + [Defaults];
      FirstMatchAppend([Environment], [Defaults], t, key);
    }
  }

  /**
   * A `Variables` object among the added sources answers every key, so the
   * tiers after it are never consulted for a key no earlier source holds.
   */
  lemma NestedShadowsLowerTiers(p: EnvPlacement, xs: seq<AddedSource>, t: Tables, key: string, i: nat)
    requires key !in t.local && !(p == Top && Upper(key) in t.env)
    requires i < |xs| && xs[i].Nested? && Silent(xs[..i], t, key)
    ensures FirstMatch(Layout(p, xs), t, key) == Some(xs[i].answer(key))
  {
    assert forall j :: 0 <= j < i ==> xs[..i][j] == xs[j];
    AddedSourcesInOrder(p, xs, t, key, i);
  }

  /** The coercion registered for `key`, applied to a matched value; an explicit `None` means none. */
  function Coerce(typeFns: map<string, Option<Value -> Value>>, key: string, v: Value): Value {
    if key in typeFns && typeFns[key].Some? then typeFns[key].value(v) else v
  }

  /** The match `__getitem__` finds: in the local overlay only, or by scanning the sources. */
  function Match(srcs: seq<Source>, t: Tables, key: string, localOnly: bool): Option<Value> {
    if localOnly then LookupIn(Local, t, key) else FirstMatch(srcs, t, key)
  }

  /** `__getitem__(key, default, local)`: the coerced match, or the caller's default when nothing matches. */
  function Read(srcs: seq<Source>, t: Tables, typeFns: map<string, Option<Value -> Value>>,
                key: string, default: Value, localOnly: bool): (r: Value)
    ensures Match(srcs, t, key, localOnly).None? ==> r == default
    ensures (Match(srcs, t, key, localOnly).Some? && key in typeFns && typeFns[key].Some?)
              ==> r == typeFns[key].value(Match(srcs, t, key, localOnly).value)
    ensures (Match(srcs, t, key, localOnly).Some? && (key !in typeFns || typeFns[key].None?))
              ==> r == Match(srcs, t, key, localOnly).value
  {
    var m := Match(srcs, t, key, localOnly);
    if m.Some? then Coerce(typeFns, key, m.value) else default
  }

  /** The keys `_absorb_keys` takes from a source: a dict's keys or a nested object's `keys()`. */
  function AbsorbedKeys(s: AddedSource): set<string> {
    match s
    case Dict(entries) => entries.Keys
    case Nested(_, known, _) => known
  }

  /** The keys absorbed from a list of sources: exactly those some source offers. */
  function AllAbsorbedKeys(xs: seq<AddedSource>): (r: set<string>)
    ensures forall i :: 0 <= i < |xs| ==> AbsorbedKeys(xs[i]) <= r
    ensures forall k :: k in r ==> exists i :: 0 <= i < |xs| && k in AbsorbedKeys(xs[i])
  {
    if xs == [] then {}
    else
      var init := xs[..|xs| - 1];
      assert forall i :: 0 <= i < |init| ==> init[i] == xs[i];
      AllAbsorbedKeys(init) + AbsorbedKeys(xs[|xs| - 1])
  }

  /** The result key `get_by_prefix` derives from a known key. */
  function KeyFilter(k: string, ps: string, dropPrefix: bool, keyLower: bool): string {
    var a := if dropPrefix then RemovePrefix(k, ps) else k;
    if keyLower then Lower(a) else a
  }

  /** Dropping the prefix without lower-casing loses nothing: the prefix and the result key give the known key back. */
  lemma KeyFilterRestores(k: string, ps: string)
    requires StartsWith(k, ps)
    ensures ps + KeyFilter(k, ps, true, false) == k
    ensures KeyFilter(k, ps, true, true) == Lower(k[|ps|..])
  {
  }

  /** The entries of a dict whose keys start with `ps`. */
  function Prefixed(source: map<string, Value>, ps: string): (r: map<string, Value>)
    ensures forall k :: k in r <==> k in source && StartsWith(k, ps)
    ensures forall k :: k in r ==> r[k] == source[k]
  {
    map k | k in source && StartsWith(k, ps) :: source[k]
  }

  /** Handling one more entry of the dict adds it to the prefixed part exactly when its key has the prefix. */
  lemma PrefixedStep(base: map<string, Value>, source: map<string, Value>, todo: set<string>, k: string, ps: string)
    requires k in todo && k in source
    ensures StartsWith(k, ps) ==>
      (base + Prefixed(source - todo, ps))[k := source[k]] == base + Prefixed(source - (todo - {k}), ps)
    ensures !StartsWith(k, ps) ==> Prefixed(source - todo, ps) == Prefixed(source - (todo - {k}), ps)
  {
  }

  /** The prefix string `f'{prefix}{sep}'` after the optional lower-casing. */
  function PrefixWithSep(prefix: string, sep: string, prefixLower: bool): string {
    (if prefixLower then Lower(prefix) else prefix) + sep
  }

  /** `__init__`'s placement check: a non-member raises `ValueError`. */
  function CheckPlacement(arg: PlacementArg): (r: Result<EnvPlacement, string>)
    ensures r.Ok? <==> arg.Member?
    ensures r.Ok? ==> r.value == arg.p
  {
    match arg
    case Member(p) => Ok(p)
    case NotAMember(_) => Err("invalid value for env_placement")
  }

  class Variables {
    /** The process environment, looked up through the upper-casing proxy. */
    const env: map<string, string>
    const placement: EnvPlacement
    const bottomOffset: nat
    var local: map<string, Value>
    var defaults: map<string, Value>
    var typeFns: map<string, Option<Value -> Value>>
    var keys: set<string>
    var sources: seq<Source>
    /** The sources given to the constructor and to `add_source`, in order. */
    ghost var extras: seq<AddedSource>

    ghost predicate Valid()
      reads this
    {
      sources == Layout(placement, extras) && bottomOffset == BottomOffset(placement)
    }

    function State(): Tables
      reads this
    {
      Tables(env, local, defaults)
    }

    /** What a read of `key` returns in the current state. */
    function Lookup(key: string, default: Value, localOnly: bool): Value
      reads this
    {
      Read(sources, State(), typeFns, key, default, localOnly)
    }

    /**
     * `__init__` for a valid placement. The local overlay is the dict that
     * `local_provider()` returns, `initialLocal` (empty for the default
     * `dict`); its keys are absorbed with the given sources' keys. The
     * defaults and coercions start empty.
     */
    constructor(p: EnvPlacement, given: seq<AddedSource>, environment: map<string, string>, initialLocal: map<string, Value>)
      ensures Valid()
      ensures env == environment && placement == p && extras == given
      ensures local == initialLocal && defaults == map[] && typeFns == map[]
      ensures keys == initialLocal.Keys + AllAbsorbedKeys(given)
    {
      env := environment;
      placement := p;
      bottomOffset := BottomOffset(p);
      local := initialLocal;
      defaults := map[];
      typeFns := map[];
      keys := initialLocal.Keys + AllAbsorbedKeys(given);
      sources := Layout(p, given);
      extras := given;
    }

    /** `Variables(sources, env_placement, local_provider)`, including the `ValueError` for a placement that is not a member. */
    static method Create(arg: PlacementArg, given: seq<AddedSource>, environment: map<string, string>, initialLocal: map<string, Value>)
      returns (r: Result<Variables, string>)
      ensures r.Ok? <==> arg.Member?
      ensures r.Ok? ==> fresh(r.value) && r.value.Valid() && r.value.placement == arg.p
                        && r.value.extras == given && r.value.env == environment
                        && r.value.local == initialLocal && r.value.defaults == map[] && r.value.typeFns == map[]
                        && r.value.keys == initialLocal.Keys + AllAbsorbedKeys(given)
    {
      var p := CheckPlacement(arg);
      if p.Err? {
        return Err(p.error);
      }
      var v := new Variables(p.value, given, environment, initialLocal);
      return Ok(v);
    }

    /** `__getitem__`/`get`: scan the sources, stop at the first that answers; a match records the key. */
    method Get(key: string, default: Value, localOnly: bool) returns (r: Value)
      modifies this
      ensures r == old(Lookup(key, default, localOnly))
      ensures keys == if Match(sources, State(), key, localOnly).Some? then old(keys) + {key} else old(keys)
      ensures local == old(local) && defaults == old(defaults) && typeFns == old(typeFns)
      ensures sources == old(sources) && extras == old(extras)
    {
      var m: Option<Value> := None;
      if localOnly {
        if key in local {
          m := Some(local[key]);
        }
      } else {
        var i := 0;
        while i < |sources|
          invariant 0 <= i <= |sources|
          invariant m.None? ==> FirstMatch(sources, State(), key) == FirstMatch(sources[i..], State(), key)
          invariant m.Some? ==> m == FirstMatch(sources, State(), key)
          decreases |sources| - i, if m.None? then 1 else 0
        {
          assert sources[i..][1..] == sources[i + 1..];
          var hit := LookupIn(sources[i], State(), key);
          if hit.Some? {
            m := hit;
            break;
          }
          i := i + 1;
        }
      }
      if m.Some? {
        keys := keys + {key};
        r := Coerce(typeFns, key, m.value);
      } else {
        r := default;
      }
    }

    /** `environ(key, default, type_fn)`: register the default (unless not given) and the coercion (unless `None`), record the key, then read it. */
    method Environ(key: string, default: Option<Value>, typeFn: Option<Value -> Value>) returns (r: Value)
      modifies this
      ensures defaults == if default.Some? then old(defaults)[key := default.value] else old(defaults)
      ensures typeFns == if typeFn.Some? then old(typeFns)[key := typeFn] else old(typeFns)
      ensures keys == old(keys) + {key}
      ensures local == old(local) && sources == old(sources) && extras == old(extras)
      ensures r == Lookup(key, Null, false)
    {
      if default.Some? {
        defaults := defaults[key := default.value];
      }
      if typeFn.Some? {
        typeFns := typeFns[key := typeFn];
      }
      keys := keys + {key};
      r := Get(key, Null, false);
    }

    /** `set(key, value)`: write to the local overlay, record the key, return the value. */
    method Set(key: string, value: Value) returns (r: Value)
      modifies this
      ensures r == value
      ensures local == old(local)[key := value] && keys == old(keys) + {key}
      ensures defaults == old(defaults) && typeFns == old(typeFns)
      ensures sources == old(sources) && extras == old(extras)
    {
      local := local[key := value];
      keys := keys + {key};
      r := value;
    }

    /** `__setitem__`: the same write as `set`, without a result. */
    method SetItem(key: string, value: Value)
      modifies this
      ensures local == old(local)[key := value] && keys == old(keys) + {key}
      ensures defaults == old(defaults) && typeFns == old(typeFns)
      ensures sources == old(sources) && extras == old(extras)
    {
      var _ := Set(key, value);
    }

    /** `update(dict_values, **kwargs)`: every pair is set, and `dict_values` wins over `kwargs`. */
    method Update(dictValues: map<string, Value>, kwargs: map<string, Value>)
      modifies this
      ensures local == old(local) + (kwargs + dictValues)
      ensures keys == old(keys) + (kwargs + dictValues).Keys
      ensures defaults == old(defaults) && typeFns == old(typeFns)
      ensures sources == old(sources) && extras == old(extras)
    {
      var merged := kwargs + dictValues;
      var todo := merged.Keys;
      while todo != {}
        invariant todo <= merged.Keys
        invariant local == old(local) + (merged - todo)
        invariant keys == old(keys) + (merged.Keys - todo)
        invariant defaults == old(defaults) && typeFns == old(typeFns)
        invariant sources == old(sources) && extras == old(extras)
        decreases todo
      {
        var k :| k in todo;
        DrainStep(old(local), merged, todo, k);
        SetItem(k, merged[k]);
        todo := todo - {k};
      }
      assert merged - todo == merged;
    }

    /** `set_type_fn(key, type_fn)`: an explicit `None` is stored and disables coercion. */
    method SetTypeFn(key: string, typeFn: Option<Value -> Value>)
      modifies this
      ensures typeFns == old(typeFns)[key := typeFn]
      ensures local == old(local) && defaults == old(defaults) && keys == old(keys)
      ensures sources == old(sources) && extras == old(extras)
    {
      typeFns := typeFns[key := typeFn];
    }

    /** `set_default_value(key, default)`. */
    method SetDefaultValue(key: string, default: Value)
      modifies this
      ensures defaults == old(defaults)[key := default]
      ensures local == old(local) && typeFns == old(typeFns) && keys == old(keys)
      ensures sources == old(sources) && extras == old(extras)
    {
      defaults := defaults[key := default];
    }

    /** `set_type_default(key, default, type_fn)`: `None` below stands for the `NOT_SET` sentinel, so an explicit `type_fn=None` is stored. */
    method SetTypeDefault(key: string, default: Option<Value>, typeFn: Option<Option<Value -> Value>>)
      modifies this
      ensures defaults == if default.Some? then old(defaults)[key := default.value] else old(defaults)
      ensures typeFns == if typeFn.Some? then old(typeFns)[key := typeFn.value] else old(typeFns)
      ensures local == old(local) && keys == old(keys)
      ensures sources == old(sources) && extras == old(extras)
    {
      if default.Some? {
        defaults := defaults[key := default.value];
      }
      if typeFn.Some? {
        typeFns := typeFns[key := typeFn.value];
      }
    }

    /** `get_or_set(key, value_fn)` on the local overlay: `value_fn` runs only for an absent key, and nothing is overwritten. */
    method GetOrSet(key: string, valueFn: () -> Value) returns (r: Value, called: bool)
      modifies this
      ensures called <==> key !in old(local)
      ensures r == if called then valueFn() else old(local)[key]
      ensures local == old(local)[key := r]
      ensures defaults == old(defaults) && typeFns == old(typeFns) && keys == old(keys)
      ensures sources == old(sources) && extras == old(extras)
    {
      if key in local {
        return local[key], false;
      }
      r := valueFn();
      called := true;
      local := local[key := r];
    }

    /** `get_or_set_default(key, value_fn)`: the same on the defaults tier. */
    method GetOrSetDefault(key: string, valueFn: () -> Value) returns (r: Value, called: bool)
      modifies this
      ensures called <==> key !in old(defaults)
      ensures r == if called then valueFn() else old(defaults)[key]
      ensures defaults == old(defaults)[key := r]
      ensures local == old(local) && typeFns == old(typeFns) && keys == old(keys)
      ensures sources == old(sources) && extras == old(extras)
    {
      if key in defaults {
        return defaults[key], false;
      }
      r := valueFn();
      called := true;
      defaults := defaults[key := r];
    }

    /** `add_source(src)`: insert at `len(sources) - bottom_offset` and absorb the source's keys. */
    method AddSource(src: AddedSource)
      requires Valid()
      modifies this
      ensures Valid()
      ensures extras == old(extras) + [src]
      ensures var at := |old(sources)| - bottomOffset;
              0 <= at && sources == old(sources)[..at] + [Added(src)] + old(sources)[at..]
      ensures keys == old(keys) + AbsorbedKeys(src)
      ensures local == old(local) && defaults == old(defaults) && typeFns == old(typeFns)
    {
      AddSourcePosition(placement, extras, src);
      var at := |sources| - bottomOffset;
      sources := sources[..at] + [Added(src)] + sources[at..];
      keys := keys + AbsorbedKeys(src);
      extras := extras + [src];
    }

    /** `__contains__`: a known key, or one the environment holds upper-cased. */
    predicate Contains(key: string)
      reads this
    {
      key in keys || Upper(key) in env
    }

    /**
     * `get_by_prefix`: one entry per known key starting with the (optionally
     * lower-cased) prefix and separator, under its filtered name, holding what a
     * plain read of that key returns. When two known keys filter to the same
     * name, the one the set iteration meets last wins.
     */
    method GetByPrefix(prefix: string, sep: string, dropPrefix: bool, prefixLower: bool, keyLower: bool)
      returns (r: map<string, Value>)
      ensures var ps := PrefixWithSep(prefix, sep, prefixLower);
        forall q :: q in r <==> exists k :: k in keys && StartsWith(k, ps) && KeyFilter(k, ps, dropPrefix, keyLower) == q
      ensures var ps := PrefixWithSep(prefix, sep, prefixLower);
        forall q :: q in r ==> exists k :: k in keys && StartsWith(k, ps) && KeyFilter(k, ps, dropPrefix, keyLower) == q
                                     && r[q] == Lookup(k, Null, false)
    {
      var ps := PrefixWithSep(prefix, sep, prefixLower);
      var todo := keys;
      r := map[];
      while todo != {}
        invariant todo <= keys
        invariant forall q :: q in r <==> exists k :: k in keys - todo && StartsWith(k, ps) && KeyFilter(k, ps, dropPrefix, keyLower) == q
        invariant forall q :: q in r ==> exists k :: k in keys - todo && StartsWith(k, ps) && KeyFilter(k, ps, dropPrefix, keyLower) == q
                                             && r[q] == Lookup(k, Null, false)
        decreases todo
      {
        var k :| k in todo;
        if StartsWith(k, ps) {
          r := r[KeyFilter(k, ps, dropPrefix, keyLower) := Lookup(k, Null, false)];
        }
        todo := todo - {k};
      }
    }

    /**
     * `import_from_dict_by_prefix`: every source entry whose key starts with
     * `prefix + sep` becomes a registered default and a known key, then the
     * prefix query runs. With an empty source only the query runs, and then with
     * its default `prefix_lower` and `key_lower` rather than the given ones.
     */
    method ImportFromDictByPrefix(prefix: string, source: map<string, Value>, sep: string,
                                  dropPrefix: bool, prefixLower: bool, keyLower: bool)
      returns (r: map<string, Value>)
      modifies this
      ensures var imported := Prefixed(source, prefix + sep);
        defaults == old(defaults) + imported && keys == old(keys) + imported.Keys
      ensures local == old(local) && typeFns == old(typeFns) && sources == old(sources) && extras == old(extras)
      ensures var pl := if source == map[] then false else prefixLower;
              var kl := if source == map[] then true else keyLower;
              var ps := PrefixWithSep(prefix, sep, pl);
        (forall q :: q in r <==> exists k :: k in keys && StartsWith(k, ps) && KeyFilter(k, ps, dropPrefix, kl) == q)
        && (forall q :: q in r ==> exists k :: k in keys && StartsWith(k, ps) && KeyFilter(k, ps, dropPrefix, kl) == q
                                        && r[q] == Lookup(k, Null, false))
    {
      if source == map[] {
        r := GetByPrefix(prefix, sep, dropPrefix, false, true);
        return;
      }
      RegisterPrefixed(source, prefix + sep);
      r := GetByPrefix(prefix, sep, dropPrefix, prefixLower, keyLower);
    }

    /** The registering half of `import_from_dict_by_prefix`: `environ(k, default=v)` for each prefixed entry. */
    method RegisterPrefixed(source: map<string, Value>, ps: string)
      modifies this
      ensures defaults == old(defaults) + Prefixed(source, ps) && keys == old(keys) + Prefixed(source, ps).Keys
      ensures local == old(local) && typeFns == old(typeFns) && sources == old(sources) && extras == old(extras)
    {
      var todo := source.Keys;
      while todo != {}
        invariant todo <= source.Keys
        invariant defaults == old(defaults) + Prefixed(source - todo, ps)
        invariant keys == old(keys) + Prefixed(source - todo, ps).Keys
        invariant local == old(local) && typeFns == old(typeFns) && sources == old(sources) && extras == old(extras)
        decreases todo
      {
        var k :| k in todo;
        PrefixedStep(old(defaults), source, todo, k, ps);
        if StartsWith(k, ps) {
          var _ := Environ(k, Some(source[k]), None);
        }
        todo := todo - {k};
      }
      assert source - todo == source;
    }

    /** `export_all_variables(exclude_epp)`: every known key (less the epp ones when asked) with what a plain read returns. */
    method ExportAllVariables(excludeEpp: bool) returns (r: map<string, Value>)
      ensures forall k :: k in r <==> k in keys && !(excludeEpp && IsEpp(Str(k)))
      ensures forall k :: k in r ==> r[k] == Lookup(k, Null, false)
    {
      var todo := keys;
      r := map[];
      while todo != {}
        invariant todo <= keys
        invariant forall k :: k in r <==> k in keys - todo && !(excludeEpp && IsEpp(Str(k)))
        invariant forall k :: k in r ==> r[k] == Lookup(k, Null, false)
        decreases todo
      {
        var k :| k in todo;
        if !(excludeEpp && IsEpp(Str(k))) {
          r := r[k := Lookup(k, Null, false)];
        }
        todo := todo - {k};
      }
    }
  }

  /** After `set(k, x)` the key reads as `x` (coerced) unless the environment outranks the overlay under `Top`. */
  lemma SetThenRead(p: EnvPlacement, xs: seq<AddedSource>, t: Tables, typeFns: map<string, Option<Value -> Value>>,
                    key: string, x: Value, default: Value)
    ensures var t' := t.(local := t.local[key := x]);
      Read(Layout(p, xs), t', typeFns, key, default, false)
        == if p == Top && Upper(key) in t.env then Coerce(typeFns, key, Str(t.env[Upper(key)])) else Coerce(typeFns, key, x)
  {
    LocalOutranks(p, xs, t.(local := t.local[key := x]), key);
  }

  /** A default registered by `environ` answers a later read when no overlay, added source or outranking environment entry holds the key. */
  lemma EnvironDefaultThenRead(p: EnvPlacement, xs: seq<AddedSource>, t: Tables, typeFns: map<string, Option<Value -> Value>>,
                               key: string, d: Value, default: Value)
    requires key !in t.local && Silent(xs, t, key)
    requires p == Bottom || p == Ignored || Upper(key) !in t.env
    ensures Read(Layout(p, xs), t.(defaults := t.defaults[key := d]), typeFns, key, default, false) == Coerce(typeFns, key, d)
  {
    var t' := t.(defaults := t.defaults[key := d]);
    assert Silent(xs, t', key) by {
      forall i | 0 <= i < |xs| ensures LookupIn(Added(xs[i]), t', key).None? {
        assert LookupIn(Added(xs[i]), t', key) == LookupIn(Added(xs[i]), t, key);
      }
    }
    LowerTiers(p, xs, t', key);
  }
}
