/**
 * `ext_plugins/muti_tenant.py`: a provider that hands out one configuration
 * store per tenant id, caching each store after its first lookup, and the
 * plugin flag that switches multi-tenant support on.
 *
 * The root store is the package's exported `Variables` (`Variables2`); each
 * tenant store is the full store of `api/variables.py`, whose placement of the
 * environment tier is chosen by the root's include-env flag.
 */
module MultiTenant {
  import opened Base
  import opened Text
  import opened PyValues
  import Parsing
  import opened VariablesV1
  import opened VariablesV2

  const EnabledKey := "SAF_MULTITENANT_ENABLED"
  const IncludeEnvKey := "SAF_MULTITENANT_INCLUDE_ENV"
  /** `DEFAULT_MULTITENANT_INCLUDE_ENV`. */
  const DefaultIncludeEnv := Bool(false)
  /** `_VAR_MAIN_LOGGER` of `core/core.py`. */
  const MainLoggerKey := "=|main_logger|"
  /** The key `core/core.py` reads the logging level under. */
  const LoggingLevelKey := "LOGGING_LEVEL"

  /** The placement of lines 58-62: the environment goes last when the flag is truthy and is dropped otherwise. */
  function TenantPlacement(flag: Value): EnvPlacement {
    if Truthy(flag) then Bottom else Ignored
  }

  /** The logger `getLogger(name)` returns, identified by its name. */
  function LoggerFor(name: string): Value {
    Obj(name)
  }

  /**
   * A key read with `ext_parse_bool` registered as its coercion reads truthy
   * exactly when the first source holding it gives a value that parses true:
   * an environment variable decides when present, and when no tier above the
   * defaults holds the key, the registered default decides.
   */
  lemma ParsedFlag(given: seq<AddedSource>, appended: seq<AddedSource>, t: Tables,
                   typeFns: map<string, Option<Value -> Value>>, key: string)
    requires key in typeFns && typeFns[key] == Some(ParseBoolCoercion)
    ensures var r := Read2(Layout2(given, appended), t, typeFns, key, false);
      var m := Scan(Layout2(given, appended), t, key);
      && (Truthy(r) <==> m.Some? && Parsing.ParseBool(m.value))
      && (Upper(key) in t.env ==> (Truthy(r) <==> Parsing.ParseBool(Str(t.env[Upper(key)]))))
      && ((Upper(key) !in t.env && key !in t.local && key in t.defaults
           && (forall i :: 0 <= i < |given| ==> Probe(Added(given[i]), t, key).None?))
          ==> (Truthy(r) <==> Parsing.ParseBool(t.defaults[key])))
  {
    var srcs := Layout2(given, appended);
    var m := Scan(srcs, t, key);
    assert Match2(srcs, t, key, false) == m;
    if m.Some? {
      assert Read2(srcs, t, typeFns, key, false) == Bool(Parsing.ParseBool(m.value));
    }
    EnvThenLocal(given, appended, t, key);
    if Upper(key) !in t.env && key !in t.local && key in t.defaults
       && (forall i :: 0 <= i < |given| ==> Probe(Added(given[i]), t, key).None?) {
      DefaultsOutrankAdded(given, appended, t, key);
    }
  }

  /** `BaseMultiTenantProvider`: the root store, the per-tenant sources and the tenant cache. */
  class Provider {
    const root: Variables2
    /** `_tenant_sources`: the sources of each tenant's store (none, in the base class). */
    const tenantSources: string -> seq<AddedSource>
    /** `_local_provider(tenant_id)()`: the overlay each tenant's store starts with (empty, for the base class's `dict`). */
    const tenantLocal: string -> map<string, Value>
    var data: map<string, Variables>

    ghost predicate Valid()
      reads this, root
    {
      root.Valid()
    }

    constructor(root: Variables2, tenantSources: string -> seq<AddedSource>, tenantLocal: string -> map<string, Value>)
      requires root.Valid()
      ensures Valid()
      ensures this.root == root && this.tenantSources == tenantSources && this.tenantLocal == tenantLocal && data == map[]
    {
      this.root := root;
      this.tenantSources := tenantSources;
      this.tenantLocal := tenantLocal;
      data := map[];
    }

    /**
     * `__getitem__`, also bound as `get`: a cached tenant's store is returned
     * as it is; otherwise a new store over the tenant's sources is built,
     * cached, and given the tenant's logger.
     */
    method Get(tenantId: string) returns (r: Variables)
      requires Valid()
      modifies this, root
      ensures Valid()
      ensures tenantId in old(data) ==> r == old(data)[tenantId] && data == old(data) && unchanged(root)
      ensures tenantId !in old(data) ==>
        && fresh(r) && data == old(data)[tenantId := r]
        && r.Valid() && r.extras == tenantSources(tenantId) && r.env == root.env
        && r.placement == TenantPlacement(root.Lookup(IncludeEnvKey, false))
        && r.local == tenantLocal(tenantId)[MainLoggerKey := LoggerFor(tenantId)] && r.defaults == map[] && r.typeFns == map[]
        && r.keys == tenantLocal(tenantId).Keys + AllAbsorbedKeys(tenantSources(tenantId)) + {MainLoggerKey}
      ensures tenantId !in old(data) ==>
        && (r.placement == Bottom <==> var m := Scan(root.sources, root.State(), IncludeEnvKey);
                                     m.Some? && Parsing.ParseBool(m.value))
        && (Upper(IncludeEnvKey) in root.env
            ==> (r.placement == Bottom <==> Parsing.ParseBool(Str(root.env[Upper(IncludeEnvKey)]))))
        && ((Upper(IncludeEnvKey) !in root.env && IncludeEnvKey !in old(root.local)
             && (forall i :: 0 <= i < |root.given| ==> Probe(Added(root.given[i]), root.State(), IncludeEnvKey).None?))
            ==> r.placement == Ignored)
      ensures tenantId !in old(data) ==>
        && root.defaults == old(root.defaults)[IncludeEnvKey := DefaultIncludeEnv]
        && root.typeFns == old(root.typeFns)[IncludeEnvKey := Some(ParseBoolCoercion)]
        && root.keys == old(root.keys) + {IncludeEnvKey, LoggingLevelKey}
        && root.local == old(root.local) && root.sources == old(root.sources)
        && root.given == old(root.given) && root.appended == old(root.appended)
    {
      if tenantId in data {
        return data[tenantId];
      }
      var sources := tenantSources(tenantId);
      var flag := root.Environ(IncludeEnvKey, "", DefaultIncludeEnv, Some(ParseBoolCoercion));
      var placement := TenantPlacement(flag);
      r := new Variables(placement, sources, root.env, tenantLocal(tenantId));
      data := data[tenantId := r];
      var _ := r.Set(MainLoggerKey, LoggerFor(tenantId));
      var _ := root.Environ(LoggingLevelKey, "", Null, None);
      assert root.Lookup(IncludeEnvKey, false) == flag;
      ParsedFlag(root.given, root.appended, root.State(), root.typeFns, IncludeEnvKey);
    }
  }

  /** `MultiTenantPlugin.is_enabled(v)`: the enabled flag read with `ext_parse_bool` and no default. */
  method IsEnabled(v: Variables2) returns (r: Value)
    requires v.Valid()
    modifies v
    ensures Truthy(r) <==> var m := Scan(v.sources, v.State(), EnabledKey); m.Some? && Parsing.ParseBool(m.value)
    ensures Upper(EnabledKey) in v.env ==> (Truthy(r) <==> Parsing.ParseBool(Str(v.env[Upper(EnabledKey)])))
    ensures v.typeFns == old(v.typeFns)[EnabledKey := Some(ParseBoolCoercion)] && v.keys == old(v.keys) + {EnabledKey}
    ensures v.local == old(v.local) && v.defaults == old(v.defaults)
    ensures v.sources == old(v.sources) && v.given == old(v.given) && v.appended == old(v.appended)
  {
    r := v.Environ(EnabledKey, "", Null, Some(ParseBoolCoercion));
    ParsedFlag(v.given, v.appended, v.State(), v.typeFns, EnabledKey);
  }

  // ------------------------------------------------ the module as written

  /** The names the `scitrera_app_framework.api` package binds. */
  const ApiNames: set<string> := {"Plugin", "enabled_option_pattern", "Variables", "ext_parse_bool", "ext_parse_csv"}
  /** The names line 6 imports from it. */
  const ImportedNames: seq<string> := ["Plugin", "Variables", "ext_parse_bool", "EnvPlacement"]
  /** The keyword parameters of the exported `Variables`, which is `Variables2`. */
  const ExportedStoreKeywords: set<string> := {"sources"}
  /** The keyword parameters of the full store of `api/variables.py`. */
  const FullStoreKeywords: set<string> := {"sources", "env_placement", "local_provider"}
  /** The keywords lines 66-70 pass when building a tenant store. */
  const TenantStoreKeywords: seq<string> := ["sources", "env_placement", "local_provider"]

  /**
   * The first of `names` that `bound` lacks: the name `from m import names`
   * raises `ImportError` for, or the keyword a call raises `TypeError` for.
   */
  function FirstUnbound(bound: set<string>, names: seq<string>): (r: Option<string>)
    ensures r.None? <==> forall i :: 0 <= i < |names| ==> names[i] in bound
    ensures r.Some? ==> exists k :: 0 <= k < |names| && names[k] == r.value && r.value !in bound
                                    && forall j :: 0 <= j < k ==> names[j] in bound
  {
    if names == [] then None
    else if names[0] !in bound then Some(names[0])
    else
      var rest := FirstUnbound(bound, names[1..]);
      if rest.Some? then
        var k' :| 0 <= k' < |names[1..]| && names[1..][k'] == rest.value && rest.value !in bound
                  && forall j :: 0 <= j < k' ==> names[1..][j] in bound;
        assert names[k' + 1] == rest.value && forall j :: 0 <= j < k' + 1 ==> names[j] in bound;
        rest
      else
        assert forall i :: 1 <= i < |names| ==> names[i] == names[1..][i - 1];
        rest
  }

  /** As written, importing the module fails: the package does not export `EnvPlacement`. */
  lemma ImportAsWritten()
    ensures FirstUnbound(ApiNames, ImportedNames) == Some("EnvPlacement")
  {
  }

  /**
   * As written, a first tenant lookup fails even past the import: the exported
   * store takes no `env_placement` or `local_provider`, while the full store
   * accepts every keyword passed.
   */
  lemma TenantStoreCallAsWritten()
    ensures FirstUnbound(ExportedStoreKeywords, TenantStoreKeywords) == Some("env_placement")
    ensures FirstUnbound(FullStoreKeywords, TenantStoreKeywords) == None
  {
  }
}
