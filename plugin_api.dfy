/**
 * `api/plugins.py`: what a plugin class declares. A plugin class is a record
 * of the hooks it overrides; a hook it does not override takes the base
 * class's default. The bodies of `initialize` and `shutdown` are not
 * modelled: a class records the value `initialize` produces and whether
 * `shutdown` raises.
 */
module PluginApi {
  import opened Base
  import opened PyValues
  import VariablesV2

  /** The identity of a plugin class: one declared in a module, or the class a `set_extension` call creates. */
  datatype TypeId = Declared(qualname: string) | Facade(serial: nat)

  /** A subclass of `Plugin`, given by the hooks it overrides (`None` where it keeps the default). */
  datatype PluginClass = PluginClass(
    ty: TypeId,
    /** The classes it derives from, for `isinstance`. */
    bases: set<TypeId>,
    moduleName: string,
    className: string,
    nameOverride: Option<string>,
    extensionPointOverride: Option<string>,
    enabledOverride: Option<bool>,
    dependenciesOverride: Option<seq<string>>,
    eagerOverride: Option<bool>,
    /** Class attributes reachable with `getattr`. */
    attrs: map<string, Value>,
    /** What `initialize` returns. */
    initValue: Value,
    /** Whether `shutdown` raises. */
    shutdownRaises: bool)

  /** An instance: instantiating a class twice gives two distinct instances. */
  datatype PluginInstance = PluginInstance(id: nat, cls: PluginClass)

  /** `name()`: by default the class's module and name joined by a dot. */
  function Name(c: PluginClass): string {
    c.nameOverride.GetOr(c.moduleName + "." + c.className)
  }

  /** `extension_point_name(v)`: by default the plugin's name. */
  function ExtensionPoint(c: PluginClass): string {
    c.extensionPointOverride.GetOr(Name(c))
  }

  /** `is_enabled(v)`: by default true. */
  predicate IsEnabled(c: PluginClass) {
    c.enabledOverride.GetOr(true)
  }

  /** `get_dependencies(v)`: by default empty. */
  function Dependencies(c: PluginClass): seq<string> {
    c.dependenciesOverride.GetOr([])
  }

  /** The `eager` class flag: by default true. */
  predicate Eager(c: PluginClass) {
    c.eagerOverride.GetOr(true)
  }

  /** `isinstance(x, c)`. */
  predicate IsInstance(x: PluginInstance, c: PluginClass) {
    x.cls.ty == c.ty || c.ty in x.cls.bases
  }

  /** A class that overrides none of the hooks. */
  predicate KeepsDefaults(c: PluginClass) {
    c.nameOverride.None? && c.extensionPointOverride.None? && c.enabledOverride.None?
    && c.dependenciesOverride.None? && c.eagerOverride.None?
  }

  /**
   * The base class's defaults: the name is `module.ClassName`, the extension
   * point is the name, the plugin is enabled and eager and has no dependencies.
   */
  lemma Defaults(c: PluginClass)
    requires KeepsDefaults(c)
    ensures Name(c) == c.moduleName + "." + c.className
    ensures ExtensionPoint(c) == Name(c)
    ensures IsEnabled(c) && Eager(c) && Dependencies(c) == []
  {
  }

  /** Without a name override, two classes of one module with different names have different plugin names. */
  lemma DefaultNamesDistinct(c1: PluginClass, c2: PluginClass)
    requires c1.nameOverride.None? && c2.nameOverride.None? && c1.moduleName == c2.moduleName
    requires c1.className != c2.className
    ensures Name(c1) != Name(c2)
  {
    var p := c1.moduleName + ".";
    assert Name(c1) == p + c1.className && Name(c2) == p + c2.className;
    assert Name(c1)[|p|..] == c1.className && Name(c2)[|p|..] == c2.className;
  }

  /** The value `enabled_option_pattern` compares with: the named attribute, or the plugin's name. */
  function OptionTarget(x: PluginInstance, selfAttr: string): (r: Result<Value, string>)
    ensures selfAttr == "" ==> r == Ok(Str(Name(x.cls)))
    ensures selfAttr != "" ==> (r.Ok? <==> selfAttr in x.cls.attrs)
  {
    if selfAttr == "" then Ok(Str(Name(x.cls)))
    else if selfAttr in x.cls.attrs then Ok(x.cls.attrs[selfAttr])
    else Err("AttributeError: " + selfAttr)
  }

  /**
   * `enabled_option_pattern(plugin, v, env_variable, default, self_attr)`: the
   * configured value (its default registered first) equals the target.
   * An empty `self_attr` stands for `None`.
   */
  method EnabledOptionPattern(x: PluginInstance, v: VariablesV2.Variables2, envVariable: string,
                              default: Value, selfAttr: string)
    returns (r: Result<bool, string>)
    modifies v
    ensures r.Ok? <==> OptionTarget(x, selfAttr).Ok?
    ensures r.Ok? ==> (r.value <==> v.Lookup(envVariable, false) == OptionTarget(x, selfAttr).value)
    ensures r.Ok? ==> v.defaults == (if default != Null then old(v.defaults)[envVariable := default] else old(v.defaults))
    ensures r.Ok? ==> v.keys == old(v.keys) + {envVariable}
    ensures r.Err? ==> unchanged(v)
    ensures v.local == old(v.local) && v.typeFns == old(v.typeFns) && v.sources == old(v.sources)
  {
    var target := OptionTarget(x, selfAttr);
    if target.Err? {
      return Err(target.error);
    }
    var configured := v.Environ(envVariable, "", default, None);
    r := Ok(configured == target.value);
  }
}
