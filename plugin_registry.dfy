/**
 * `core/plugins.py`: the plugin registry kept inside a `Variables` instance.
 * The registry's four containers (the plugin registry `=|PR|`, the extension
 * options `=|EOR|`, the extension registry `=|ER|` and `=|STARTUP_ORDER|`)
 * and the per-instance `collected` / `initialized` flags are the fields of
 * one `Registry` object.
 */
module PluginRegistry {
  import opened Base
  import opened PyValues
  import opened PluginApi
  import Text
  import VariablesV2

  /** The `ValueError`s the registry raises, one per message. */
  datatype RegistryError =
    | PluginNotFound(name: string)
    | UnknownExtensionPoint(point: string)
    | MissingDependency(point: string)
    | CircularDependency(point: string, requester: string, history: set<string>)
    | DuplicateExtensionPoint(point: string, writer: string, holder: string)
    | DuplicatePluginDefinition(name: string)

  /** An extension registry entry: the plugin and the value its `initialize` produced (`None` until it runs). */
  datatype Entry = Entry(plugin: PluginInstance, value: Value)

  /** What shutting down one started plugin does. */
  datatype ShutdownOutcome =
    | ShutDown(plugin: PluginInstance, value: Value)
    | ShutdownRaised(plugin: PluginInstance, value: Value)
    | LookupFailed(plugin: PluginInstance)

  function Ext(x: PluginInstance): string {
    ExtensionPoint(x.cls)
  }

  /** The outcome for one plugin of the startup order: only initialised plugins are shut down. */
  function ShutdownStep(x: PluginInstance, initialized: set<PluginInstance>, er: map<string, Entry>): seq<ShutdownOutcome> {
    if x !in initialized then []
    else if Ext(x) !in er then [LookupFailed(x)]
    else if x.cls.shutdownRaises then [ShutdownRaised(x, er[Ext(x)].value)]
    else [ShutDown(x, er[Ext(x)].value)]
  }

  /** The outcomes of shutting down a startup order, last started first. */
  function ShutdownPlan(order: seq<PluginInstance>, initialized: set<PluginInstance>, er: map<string, Entry>): seq<ShutdownOutcome> {
    if order == [] then [] else ShutdownPlan(order[1..], initialized, er) + ShutdownStep(order[0], initialized, er)
  }

  function OutcomePlugins(outs: seq<ShutdownOutcome>): (r: seq<PluginInstance>)
    ensures |r| == |outs|
  {
    if outs == [] then [] else [outs[0].plugin] + OutcomePlugins(outs[1..])
  }

  /** The initialised plugins of a startup order, in start order. */
  function InitializedIn(order: seq<PluginInstance>, initialized: set<PluginInstance>): seq<PluginInstance> {
    if order == [] then []
    else (if order[0] in initialized then [order[0]] else []) + InitializedIn(order[1..], initialized)
  }

  lemma {:induction false} OutcomePluginsAppend(a: seq<ShutdownOutcome>, b: seq<ShutdownOutcome>)
    ensures OutcomePlugins(a + b) == OutcomePlugins(a) + OutcomePlugins(b)
  {
    if a == [] {
      assert a + b == b;
    } else {
      assert (a + b)[1..] == a[1..] + b;
      OutcomePluginsAppend(a[1..], b);
    }
  }

  /**
   * Shutdown reaches exactly the initialised plugins, in the reverse of the
   * order they were started in, whatever an earlier shutdown raised.
   */
  lemma {:induction false} ShutdownReverseOrder(order: seq<PluginInstance>, initialized: set<PluginInstance>, er: map<string, Entry>)
    ensures OutcomePlugins(ShutdownPlan(order, initialized, er)) == Reverse(InitializedIn(order, initialized))
  {
    if order == [] {
      assert ShutdownPlan(order, initialized, er) == [];
      assert InitializedIn(order, initialized) == [];
    } else {
      var o := order[0];
      var restPlan := ShutdownPlan(order[1..], initialized, er);
      var step := ShutdownStep(o, initialized, er);
      var tail := InitializedIn(order[1..], initialized);
      assert ShutdownPlan(order, initialized, er) == restPlan + step;
      OutcomePluginsAppend(restPlan, step);
      ShutdownReverseOrder(order[1..], initialized, er);
      assert OutcomePlugins(restPlan) == Reverse(tail);
      if o in initialized {
        assert InitializedIn(order, initialized) == [o] + tail;
        assert ([o] + tail)[1..] == tail;
        assert Reverse([o] + tail) == Reverse(tail) + [o];
        assert OutcomePlugins(step) == [o];
      } else {
        assert InitializedIn(order, initialized) == [] + tail;
        assert [] + tail == tail;
        assert step == [];
        assert OutcomePlugins(step) == [];
        assert Reverse(tail) + [] == Reverse(tail);
      }
    }
  }

  /** An initialised plugin's outcome carries the value its `initialize` stored. */
  lemma {:induction false} ShutdownValues(order: seq<PluginInstance>, initialized: set<PluginInstance>, er: map<string, Entry>)
    requires forall x :: x in order && x in initialized ==> Ext(x) in er && er[Ext(x)].value == x.cls.initValue
    ensures forall o :: o in ShutdownPlan(order, initialized, er) ==> !o.LookupFailed? && o.value == o.plugin.cls.initValue
    ensures forall o :: o in ShutdownPlan(order, initialized, er) ==> (o.ShutdownRaised? <==> o.plugin.cls.shutdownRaises)
  {
    if order != [] {
      assert forall x :: x in order[1..] ==> x in order;
      ShutdownValues(order[1..], initialized, er);
    }
  }

  /** `_extension_options(ext)` for a read: an absent option set is empty. */
  function OptionsOf(options: map<string, set<PluginInstance>>, ext: string): set<PluginInstance> {
    if ext in options then options[ext] else {}
  }

  predicate HasEnabledOption(options: map<string, set<PluginInstance>>, ext: string) {
    exists x :: x in OptionsOf(options, ext) && IsEnabled(x.cls)
  }

  /** A point `_find_plugin_for_ext` finds a plugin for: one already committed, or one with an enabled candidate. */
  predicate Resolvable(er: map<string, Entry>, options: map<string, set<PluginInstance>>, ext: string) {
    ext in er || HasEnabledOption(options, ext)
  }

  /** Lines 72-73: the first of `deps` has no plugin, so the loop raises at once. */
  predicate MissingFirst(er: map<string, Entry>, options: map<string, set<PluginInstance>>, deps: seq<string>) {
    deps != [] && !Resolvable(er, options, deps[0])
  }

  /** Lines 74-75: the first of `deps` has a plugin but is a point being resolved, so the loop raises at once. */
  predicate CycleFirst(er: map<string, Entry>, options: map<string, set<PluginInstance>>, deps: seq<string>, chain: set<string>) {
    deps != [] && Resolvable(er, options, deps[0]) && deps[0] in chain
  }

  /**
   * Lines 71-77 one level down: `dep` is neither committed nor being
   * resolved, its only candidate `q` is enabled, and the first dependency of
   * `q` closes a cycle once `dep` joins the points being resolved.
   */
  predicate NestedCycle(er: map<string, Entry>, options: map<string, set<PluginInstance>>, dep: string, chain: set<string>,
                        q: PluginInstance) {
    dep !in er && dep !in chain && OptionsOf(options, dep) == {q} && IsEnabled(q.cls)
    && CycleFirst(er, options, Dependencies(q.cls), chain + {dep})
  }

  /**
   * Registering through `name not in pr`, which lower-cases the name and
   * consults the process environment: whether the storing branch is taken.
   */
  predicate StoresAsWritten(known: set<string>, env: map<string, string>, name: string) {
    !VariablesV2.ContainsKey(known, env, name)
  }

  /** The option sets after registering an instance as written. */
  function OptionsAfterRegisterAsWritten(known: set<string>, env: map<string, string>,
                                         options: map<string, set<PluginInstance>>, x: PluginInstance)
    : map<string, set<PluginInstance>>
  {
    if StoresAsWritten(known, env, Name(x.cls)) then options[Ext(x) := OptionsOf(options, Ext(x)) + {x}] else options
  }

  /**
   * As written, registering a class whose name has an upper-case letter twice
   * stores both instances as options of its extension point: its name is
   * never found among the registered names.
   */
  lemma MixedCaseNameRegisteredTwice()
    ensures var c := PluginClass(Declared("pkg.Widget"), {}, "pkg", "Widget", None, None, None, None, None, map[], Null, false);
            var x1 := PluginInstance(0, c);
            var x2 := PluginInstance(1, c);
            var o1 := OptionsAfterRegisterAsWritten({}, map[], map[], x1);
            var o2 := OptionsAfterRegisterAsWritten({Name(c)}, map[], o1, x2);
            Name(c) == "pkg.Widget" && o2[Ext(x2)] == {x1, x2}
  {
    var c := PluginClass(Declared("pkg.Widget"), {}, "pkg", "Widget", None, None, None, None, None, map[], Null, false);
    assert Name(c) == "pkg.Widget";
    assert Text.Lower(Name(c)) == "pkg.widget";
    assert Text.Lower(Name(c))[4] == 'w' && Name(c)[4] == 'W';
    assert Text.Lower(Name(c)) != Name(c);
  }

  /** The extension points of the registered plugins. */
  ghost function PointsOf(plugins: map<string, PluginInstance>): set<string> {
    set n | n in plugins :: Ext(plugins[n])
  }

  /** The plugin is the one registered under its name. */
  predicate RegisteredIn(plugins: map<string, PluginInstance>, x: PluginInstance) {
    Name(x.cls) in plugins && plugins[Name(x.cls)] == x
  }

  /** Every plugin is registered under its own name; `known` is the set of registered names. */
  ghost predicate NamesOk(plugins: map<string, PluginInstance>, known: set<string>) {
    (forall n :: n in plugins ==> Name(plugins[n].cls) == n)
    && known == plugins.Keys
  }

  /** The candidates of a point are registered plugins serving that point. */
  ghost predicate OptionsOk(plugins: map<string, PluginInstance>, options: map<string, set<PluginInstance>>) {
    forall e, x :: e in options && x in options[e] ==> RegisteredIn(plugins, x) && Ext(x) == e
  }

  /**
   * An entry's plugin serves its point and is collected; its value is `None`
   * until the plugin is initialised and what `initialize` returned after.
   */
  ghost predicate EntriesOk(er: map<string, Entry>, collected: set<PluginInstance>, initialized: set<PluginInstance>) {
    (forall e :: e in er ==> Ext(er[e].plugin) == e && er[e].plugin in collected)
    && (forall e :: e in er ==> er[e].value == if er[e].plugin in initialized then er[e].plugin.cls.initValue else Null)
  }

  /**
   * The collected plugins are the startup order, each started once; each is
   * registered, enabled and committed to its point; only collected plugins
   * are initialised.
   */
  ghost predicate StartupOk(plugins: map<string, PluginInstance>, er: map<string, Entry>, startupOrder: seq<PluginInstance>,
                      collected: set<PluginInstance>, initialized: set<PluginInstance>) {
    (forall x :: x in collected <==> x in startupOrder)
    && (forall x :: x in collected ==> RegisteredIn(plugins, x) && IsEnabled(x.cls) && Ext(x) in er && er[Ext(x)].plugin == x)
    && initialized <= collected
    && NoDuplicates(startupOrder)
  }

  /** Every dependency of a started plugin was committed by a plugin started before it. */
  ghost predicate DepsOrdered(er: map<string, Entry>, startupOrder: seq<PluginInstance>) {
    forall i, d :: 0 <= i < |startupOrder| && d in Dependencies(startupOrder[i].cls) ==>
      d in er && er[d].plugin in startupOrder[..i]
  }

  /** Storing a new instance under a fresh name keeps the registrations and the startup record consistent. */
  lemma RegisterKeeps(plugins: map<string, PluginInstance>, known: set<string>, options: map<string, set<PluginInstance>>,
                      er: map<string, Entry>, startupOrder: seq<PluginInstance>,
                      collected: set<PluginInstance>, initialized: set<PluginInstance>, x: PluginInstance)
    requires NamesOk(plugins, known) && OptionsOk(plugins, options)
    requires StartupOk(plugins, er, startupOrder, collected, initialized)
    requires Name(x.cls) !in known
    ensures var plugins' := plugins[Name(x.cls) := x];
            NamesOk(plugins', known + {Name(x.cls)})
            && OptionsOk(plugins', options[Ext(x) := OptionsOf(options, Ext(x)) + {x}])
            && StartupOk(plugins', er, startupOrder, collected, initialized)
  {
    var plugins' := plugins[Name(x.cls) := x];
    assert forall y :: RegisteredIn(plugins, y) ==> RegisteredIn(plugins', y);
  }

  /** Initialising a plugin committed without a value keeps the registry consistent. */
  lemma InitializeKeeps(plugins: map<string, PluginInstance>, er: map<string, Entry>, startupOrder: seq<PluginInstance>,
                        collected: set<PluginInstance>, initialized: set<PluginInstance>, p: PluginInstance)
    requires EntriesOk(er, collected, initialized) && StartupOk(plugins, er, startupOrder, collected, initialized)
    requires DepsOrdered(er, startupOrder)
    requires p in collected && p !in initialized
    ensures var er' := er[Ext(p) := Entry(p, p.cls.initValue)];
            EntriesOk(er', collected, initialized + {p})
            && StartupOk(plugins, er', startupOrder, collected, initialized + {p})
            && DepsOrdered(er', startupOrder)
  {
    var er' := er[Ext(p) := Entry(p, p.cls.initValue)];
    assert forall e :: e in er ==> e in er' && er'[e].plugin == er[e].plugin;
  }

  lemma CommitKeepsEntries(er: map<string, Entry>, collected: set<PluginInstance>, initialized: set<PluginInstance>,
                           p: PluginInstance, entry: Entry, initialized': set<PluginInstance>)
    requires EntriesOk(er, collected, initialized) && p !in collected && Ext(p) !in er
    requires initialized' == initialized + {p} || initialized' == initialized
    requires entry.plugin == p && entry.value == if p in initialized' then p.cls.initValue else Null
    ensures EntriesOk(er[Ext(p) := entry], collected + {p}, initialized')
  {
    var er' := er[Ext(p) := entry];
    forall e | e in er'
      ensures Ext(er'[e].plugin) == e && er'[e].plugin in collected + {p}
      ensures er'[e].value == if er'[e].plugin in initialized' then er'[e].plugin.cls.initValue else Null
    {
      if e != Ext(p) {
        assert er'[e] == er[e] && er[e].plugin != p;
      }
    }
  }

  lemma CommitKeepsStartup(plugins: map<string, PluginInstance>, er: map<string, Entry>, startupOrder: seq<PluginInstance>,
                           collected: set<PluginInstance>, initialized: set<PluginInstance>,
                           p: PluginInstance, entry: Entry, initialized': set<PluginInstance>)
    requires StartupOk(plugins, er, startupOrder, collected, initialized)
    requires RegisteredIn(plugins, p) && IsEnabled(p.cls) && p !in collected && Ext(p) !in er
    requires initialized' == initialized + {p} || initialized' == initialized
    requires entry.plugin == p
    ensures StartupOk(plugins, er[Ext(p) := entry], startupOrder + [p], collected + {p}, initialized')
  {
    var so' := startupOrder + [p];
    assert forall x :: x in so' <==> x in startupOrder || x == p;
    forall i, j | 0 <= i < j < |so'|
      ensures so'[i] != so'[j]
    {
      if j == |startupOrder| {
        assert so'[i] == startupOrder[i];
      }
    }
  }

  lemma CommitKeepsOrder(er: map<string, Entry>, startupOrder: seq<PluginInstance>, collected: set<PluginInstance>,
                         p: PluginInstance, entry: Entry)
    requires DepsOrdered(er, startupOrder)
    requires forall x :: x in collected <==> x in startupOrder
    requires forall e :: e in er ==> er[e].plugin in collected
    requires Ext(p) !in er
    requires forall d :: d in Dependencies(p.cls) ==> d in er
    ensures DepsOrdered(er[Ext(p) := entry], startupOrder + [p])
  {
    var er' := er[Ext(p) := entry];
    var so' := startupOrder + [p];
    forall i, d | 0 <= i < |so'| && d in Dependencies(so'[i].cls)
      ensures d in er' && er'[d].plugin in so'[..i]
    {
      assert so'[..i] == if i < |startupOrder| then startupOrder[..i] else startupOrder;
      if i < |startupOrder| {
        assert so'[i] == startupOrder[i];
      }
      assert d in er;
    }
  }

  class Registry {
    /** `=|PR|`: registered plugins by name. */
    var plugins: map<string, PluginInstance>
    /** The registered names (the `_keys` of `=|PR|`). */
    var known: set<string>
    /** `=|EOR|`: the registered candidates per extension point. */
    var options: map<string, set<PluginInstance>>
    /** `=|ER|`: the plugin committed to each extension point. */
    var er: map<string, Entry>
    /** `=|STARTUP_ORDER|`. */
    var startupOrder: seq<PluginInstance>
    /** The instances whose `collected` flag is set. */
    var collected: set<PluginInstance>
    /** The instances whose `initialized` flag is set. */
    var initialized: set<PluginInstance>
    /** The next instance identity. */
    var nextId: nat
    /** The number of `FacadePlugin` classes created so far. */
    var facadeCount: nat

    ghost predicate Valid()
      reads this
    {
      NamesOk(plugins, known) && OptionsOk(plugins, options)
      && EntriesOk(er, collected, initialized)
      && StartupOk(plugins, er, startupOrder, collected, initialized)
      && DepsOrdered(er, startupOrder)
    }

    /** The containers that only registration changes. */
    ghost predicate SameRegistrations(p0: map<string, PluginInstance>, k0: set<string>,
                                      o0: map<string, set<PluginInstance>>, id0: nat, f0: nat)
      reads this
    {
      plugins == p0 && known == k0 && options == o0 && nextId == id0 && facadeCount == f0
    }

    /** Committed entries are kept, the startup order is only extended, and no flag is cleared. */
    ghost predicate Extends(er0: map<string, Entry>, so0: seq<PluginInstance>,
                            c0: set<PluginInstance>, i0: set<PluginInstance>)
      reads this
    {
      (forall e :: e in er0 ==> e in er && er[e] == er0[e])
      && so0 <= startupOrder && c0 <= collected && i0 <= initialized
    }

    /** What may change from a state on: the state is extended, and only eager plugins are newly initialised. */
    ghost predicate Since(er0: map<string, Entry>, so0: seq<PluginInstance>, c0: set<PluginInstance>, i0: set<PluginInstance>)
      reads this
    {
      Extends(er0, so0, c0, i0) && (forall x :: x in initialized && x !in i0 ==> Eager(x.cls))
    }

    lemma SinceTrans(er0: map<string, Entry>, so0: seq<PluginInstance>, c0: set<PluginInstance>, i0: set<PluginInstance>,
                     er1: map<string, Entry>, so1: seq<PluginInstance>, c1: set<PluginInstance>, i1: set<PluginInstance>)
      requires (forall e :: e in er0 ==> e in er1 && er1[e] == er0[e]) && so0 <= so1 && c0 <= c1 && i0 <= i1
      requires forall x :: x in i1 && x !in i0 ==> Eager(x.cls)
      requires Since(er1, so1, c1, i1)
      ensures Since(er0, so0, c0, i0)
    {
    }

    ghost predicate SameStartup(er0: map<string, Entry>, so0: seq<PluginInstance>,
                                c0: set<PluginInstance>, i0: set<PluginInstance>)
      reads this
    {
      er == er0 && startupOrder == so0 && collected == c0 && initialized == i0
    }

    constructor ()
      ensures Valid()
      ensures plugins == map[] && known == {} && options == map[] && er == map[]
      ensures startupOrder == [] && collected == {} && initialized == {} && nextId == 0 && facadeCount == 0
    {
      plugins := map[];
      known := {};
      options := map[];
      er := map[];
      startupOrder := [];
      collected := {};
      initialized := {};
      nextId := 0;
      facadeCount := 0;
    }

    /**
     * `_find_plugin_for_ext`: the committed entry, or else an enabled candidate
     * with no value yet. Which candidate is found when several are enabled is
     * the set's iteration order, left open here.
     */
    method FindPluginForExt(ext: string) returns (r: Option<Entry>)
      requires Valid()
      ensures ext in er ==> r == Some(er[ext])
      ensures ext !in er ==> (r.Some? <==> HasEnabledOption(options, ext))
      ensures ext !in er && r.Some? ==>
        r.value.plugin in OptionsOf(options, ext) && IsEnabled(r.value.plugin.cls) && r.value.value == Null
    {
      if ext in er {
        return Some(er[ext]);
      }
      var candidates := OptionsOf(options, ext);
      if x :| x in candidates && IsEnabled(x.cls) {
        return Some(Entry(x, Null));
      }
      return None;
    }

    /** Sets the flags, stores the entry and appends to the startup order (the commit step of `_init_plugin`). */
    method Commit(p: PluginInstance, now: bool) returns (entry: Entry)
      requires Valid() && RegisteredIn(plugins, p) && IsEnabled(p.cls)
      requires p !in collected && Ext(p) !in er
      requires forall d :: d in Dependencies(p.cls) ==> d in er
      modifies this
      ensures Valid()
      ensures SameRegistrations(old(plugins), old(known), old(options), old(nextId), old(facadeCount))
      ensures entry == Entry(p, if Eager(p.cls) || now then p.cls.initValue else Null)
      ensures er == old(er)[Ext(p) := entry]
      ensures startupOrder == old(startupOrder) + [p]
      ensures collected == old(collected) + {p}
      ensures initialized == if Eager(p.cls) || now then old(initialized) + {p} else old(initialized)
    {
      var init' := if Eager(p.cls) || now then initialized + {p} else initialized;
      entry := Entry(p, if Eager(p.cls) || now then p.cls.initValue else Null);
      CommitKeepsEntries(er, collected, initialized, p, entry, init');
      CommitKeepsStartup(plugins, er, startupOrder, collected, initialized, p, entry, init');
      CommitKeepsOrder(er, startupOrder, collected, p, entry);
      er := er[Ext(p) := entry];
      startupOrder := startupOrder + [p];
      collected := collected + {p};
      initialized := init';
    }

    /**
     * `_init_plugin(name, v, _requested_by=chain, _now=now)`: resolves the
     * dependencies of the registered plugin first, then commits it to its
     * extension point, initialising it when it is eager or wanted now.
     */
    method InitPlugin(name: string, chain: set<string>, now: bool) returns (r: Result<Option<Entry>, RegistryError>)
      requires Valid()
      requires name in plugins ==> Ext(plugins[name]) !in chain
      modifies this
      decreases PointsOf(plugins) - chain, 0
      ensures Valid()
      ensures SameRegistrations(old(plugins), old(known), old(options), old(nextId), old(facadeCount))
      ensures Extends(old(er), old(startupOrder), old(collected), old(initialized))
      ensures name !in plugins ==>
        r == Err(PluginNotFound(name)) && SameStartup(old(er), old(startupOrder), old(collected), old(initialized))
      ensures name in plugins && plugins[name] in old(collected) ==>
        r == Ok(Some(old(er)[Ext(plugins[name])]))
        && SameStartup(old(er), old(startupOrder), old(collected), old(initialized))
      ensures name in plugins && plugins[name] !in old(collected) && !IsEnabled(plugins[name].cls) ==>
        r == Ok(None) && SameStartup(old(er), old(startupOrder), old(collected), old(initialized))
      ensures r.Ok? && name in plugins && plugins[name] !in old(collected) && IsEnabled(plugins[name].cls) ==>
        var p := plugins[name];
        p in collected && Ext(p) in er && er[Ext(p)].plugin == p && r == Ok(Some(er[Ext(p)]))
        && startupOrder[|startupOrder| - 1] == p
        && (p in initialized <==> Eager(p.cls) || now)
      ensures (name in plugins && plugins[name] !in old(collected) && IsEnabled(plugins[name].cls)
               && Dependencies(plugins[name].cls) == [] && Ext(plugins[name]) !in old(er)) ==> r.Ok?
      ensures (name in plugins && plugins[name] !in old(collected) && IsEnabled(plugins[name].cls)
               && Dependencies(plugins[name].cls) == [] && Ext(plugins[name]) in old(er)) ==>
        r == Err(DuplicateExtensionPoint(Ext(plugins[name]), name, Name(old(er)[Ext(plugins[name])].plugin.cls)))
      ensures (name in plugins && plugins[name] !in old(collected) && IsEnabled(plugins[name].cls)
               && MissingFirst(old(er), old(options), Dependencies(plugins[name].cls))) ==>
        r == Err(MissingDependency(Dependencies(plugins[name].cls)[0]))
      ensures (name in plugins && plugins[name] !in old(collected) && IsEnabled(plugins[name].cls)
               && CycleFirst(old(er), old(options), Dependencies(plugins[name].cls), chain + {Ext(plugins[name])})) ==>
        r == Err(CircularDependency(Dependencies(plugins[name].cls)[0], name, chain + {Ext(plugins[name])}))
      ensures forall q :: (name in plugins && plugins[name] !in old(collected) && IsEnabled(plugins[name].cls)
                           && Dependencies(plugins[name].cls) != []
                           && NestedCycle(old(er), old(options), Dependencies(plugins[name].cls)[0], chain + {Ext(plugins[name])}, q)) ==>
        r == Err(CircularDependency(Dependencies(q.cls)[0], Name(q.cls),
                                    chain + {Ext(plugins[name])} + {Dependencies(plugins[name].cls)[0]}))
      ensures r.Err? ==> !r.error.UnknownExtensionPoint? && !r.error.DuplicatePluginDefinition?
      ensures forall x :: x in initialized && x !in old(initialized) ==> Eager(x.cls) || (now && x == plugins[name])
    {
      if name !in plugins {
        return Err(PluginNotFound(name));
      }
      var p := plugins[name];
      var ext := Ext(p);
      if p in collected {
        return Ok(Some(er[ext]));
      }
      if !IsEnabled(p.cls) {
        return Ok(None);
      }
      assert ext in PointsOf(plugins);
      var deps := InitDependencies(name, chain + {ext});
      assert plugins == old(plugins) && plugins[name] == p;
      if deps.Err? {
        return Err(deps.error);
      }
      if ext in er {
        return Err(DuplicateExtensionPoint(ext, name, Name(er[ext].plugin.cls)));
      }
      var entry := Commit(p, now);
      return Ok(Some(entry));
    }

    /** The dependency loop of `_init_plugin`: resolves the plugin's dependencies in their declared order. */
    method InitDependencies(name: string, chain: set<string>) returns (r: Result<(), RegistryError>)
      requires Valid()
      requires name in plugins && Ext(plugins[name]) in chain
      modifies this
      decreases PointsOf(plugins) - chain, 3
      ensures Valid()
      ensures SameRegistrations(old(plugins), old(known), old(options), old(nextId), old(facadeCount))
      ensures Since(old(er), old(startupOrder), old(collected), old(initialized))
      ensures r.Ok? ==> forall d :: d in Dependencies(plugins[name].cls) ==> d in er
      ensures r.Err? ==> !r.error.UnknownExtensionPoint? && !r.error.DuplicatePluginDefinition?
      ensures Dependencies(plugins[name].cls) == [] ==>
        r.Ok? && SameStartup(old(er), old(startupOrder), old(collected), old(initialized))
      ensures MissingFirst(old(er), old(options), Dependencies(plugins[name].cls)) ==>
        r == Err(MissingDependency(Dependencies(plugins[name].cls)[0]))
      ensures CycleFirst(old(er), old(options), Dependencies(plugins[name].cls), chain) ==>
        r == Err(CircularDependency(Dependencies(plugins[name].cls)[0], name, chain))
      ensures forall q :: (Dependencies(plugins[name].cls) != []
                           && NestedCycle(old(er), old(options), Dependencies(plugins[name].cls)[0], chain, q)) ==>
        r == Err(CircularDependency(Dependencies(q.cls)[0], Name(q.cls), chain + {Dependencies(plugins[name].cls)[0]}))
    {
      var deps := Dependencies(plugins[name].cls);
      if deps == [] {
        return Ok(());
      }
      r := InitDependency(name, chain, deps[0], old(er), old(startupOrder), old(collected), old(initialized));
      if r.Ok? {
        r := InitRemaining(name, chain, 1, old(er), old(startupOrder), old(collected), old(initialized));
      }
    }

    /** The rest of the dependency loop of `_init_plugin`, from the dependency at `start` on, while none fails. */
    method InitRemaining(name: string, chain: set<string>, start: nat, ghost er0: map<string, Entry>,
                         ghost so0: seq<PluginInstance>, ghost c0: set<PluginInstance>, ghost i0: set<PluginInstance>)
      returns (r: Result<(), RegistryError>)
      requires Valid()
      requires name in plugins && Ext(plugins[name]) in chain
      requires start <= |Dependencies(plugins[name].cls)|
      requires Since(er0, so0, c0, i0)
      requires forall j :: 0 <= j < start ==> Dependencies(plugins[name].cls)[j] in er
      modifies this
      decreases PointsOf(plugins) - chain, 2
      ensures Valid()
      ensures SameRegistrations(old(plugins), old(known), old(options), old(nextId), old(facadeCount))
      ensures Since(er0, so0, c0, i0)
      ensures r.Ok? ==> forall d :: d in Dependencies(plugins[name].cls) ==> d in er
      ensures r.Err? ==> !r.error.UnknownExtensionPoint? && !r.error.DuplicatePluginDefinition?
    {
      var deps := Dependencies(plugins[name].cls);
      var i := start;
      r := Ok(());
      while i < |deps| && r.Ok?
        invariant start <= i <= |deps|
        invariant Valid()
        invariant SameRegistrations(old(plugins), old(known), old(options), old(nextId), old(facadeCount))
        invariant Since(er0, so0, c0, i0)
        invariant r.Ok? ==> forall j :: 0 <= j < i ==> deps[j] in er
        invariant r.Err? ==> !r.error.UnknownExtensionPoint? && !r.error.DuplicatePluginDefinition?
      {
        ghost var resolved := er.Keys;
        assert forall j :: 0 <= j < i ==> deps[j] in resolved;
        r := InitDependency(name, chain, deps[i], er0, so0, c0, i0);
        if r.Ok? {
          assert resolved <= er.Keys && deps[i] in er;
          forall j | 0 <= j < i + 1
            ensures deps[j] in er
          {
            if j < i {
              assert deps[j] in resolved;
            }
          }
        }
        i := i + 1;
      }
    }

    /** One dependency: its point must have a plugin and must not be one being resolved. */
    method InitDependency(name: string, chain: set<string>, dep: string, ghost er0: map<string, Entry>,
                          ghost so0: seq<PluginInstance>, ghost c0: set<PluginInstance>, ghost i0: set<PluginInstance>)
      returns (r: Result<(), RegistryError>)
      requires Valid()
      requires name in plugins && Ext(plugins[name]) in chain
      requires Since(er0, so0, c0, i0)
      modifies this
      decreases PointsOf(plugins) - chain, 1
      ensures Valid()
      ensures SameRegistrations(old(plugins), old(known), old(options), old(nextId), old(facadeCount))
      ensures Since(er0, so0, c0, i0)
      ensures old(er).Keys <= er.Keys
      ensures r.Ok? ==> dep in er
      ensures r.Err? ==> !r.error.UnknownExtensionPoint? && !r.error.DuplicatePluginDefinition?
      ensures !Resolvable(old(er), old(options), dep) ==>
        r == Err(MissingDependency(dep)) && SameStartup(old(er), old(startupOrder), old(collected), old(initialized))
      ensures Resolvable(old(er), old(options), dep) && dep in chain ==>
        r == Err(CircularDependency(dep, name, chain)) && SameStartup(old(er), old(startupOrder), old(collected), old(initialized))
      ensures forall q :: NestedCycle(old(er), old(options), dep, chain, q) ==>
        r == Err(CircularDependency(Dependencies(q.cls)[0], Name(q.cls), chain + {dep}))
    {
      var found := FindPluginForExt(dep);
      if found.None? {
        return Err(MissingDependency(dep));
      }
      if dep in chain {
        return Err(CircularDependency(dep, name, chain));
      }
      var q := found.value.plugin;
      assert RegisteredIn(plugins, q) && Ext(q) == dep;
      var res := InitPlugin(Name(q.cls), chain, false);
      SinceTrans(er0, so0, c0, i0, old(er), old(startupOrder), old(collected), old(initialized));
      if res.Err? {
        return Err(res.error);
      }
      assert dep in er by {
        if dep !in old(er) {
          assert q !in old(collected);
        }
      }
      return Ok(());
    }

    /**
     * `register_plugin(plugin_type, v, init)`: a new instance is stored when
     * its name is not yet registered; a registered name held by an instance
     * of another class is refused. The registered instance, not the new one,
     * is then initialised when `init` is set.
     */
    method RegisterPlugin(c: PluginClass, init: bool) returns (r: Result<PluginInstance, RegistryError>)
      requires Valid()
      modifies this
      ensures Valid()
      ensures nextId == old(nextId) + 1 && facadeCount == old(facadeCount)
      ensures r.Ok? ==> r.value == PluginInstance(old(nextId), c)
      ensures Name(c) !in old(known) ==>
        plugins == old(plugins)[Name(c) := PluginInstance(old(nextId), c)]
        && known == old(known) + {Name(c)}
        && options == old(options)[ExtensionPoint(c) := OptionsOf(old(options), ExtensionPoint(c)) + {PluginInstance(old(nextId), c)}]
      ensures Name(c) in old(known) ==> plugins == old(plugins) && known == old(known) && options == old(options)
      ensures Name(c) in old(known) && !IsInstance(old(plugins)[Name(c)], c) ==>
        r == Err(DuplicatePluginDefinition(Name(c))) && SameStartup(old(er), old(startupOrder), old(collected), old(initialized))
      ensures !init && (Name(c) !in old(known) || IsInstance(old(plugins)[Name(c)], c)) ==>
        r.Ok? && SameStartup(old(er), old(startupOrder), old(collected), old(initialized))
      ensures Extends(old(er), old(startupOrder), old(collected), old(initialized))
      ensures init && r.Ok? && IsEnabled(plugins[Name(c)].cls) ==> plugins[Name(c)] in collected
      ensures init && Name(c) !in old(known) && IsEnabled(c) && Dependencies(c) == [] && ExtensionPoint(c) !in old(er) ==>
        var x := PluginInstance(old(nextId), c);
        r == Ok(x) && ExtensionPoint(c) in er && er[ExtensionPoint(c)].plugin == x
        && (x in initialized <==> Eager(c))
      ensures forall x :: x in initialized && x !in old(initialized) ==> Eager(x.cls)
    {
      var x := PluginInstance(nextId, c);
      var name := Name(c);
      nextId := nextId + 1;
      if name !in known {
        Store(x);
      } else if !IsInstance(plugins[name], c) {
        return Err(DuplicatePluginDefinition(name));
      }
      if init {
        var res := InitPlugin(name, {}, false);
        if res.Err? {
          return Err(res.error);
        }
      }
      return Ok(x);
    }

    /** Stores an instance under its fresh name and adds it to its point's candidates. */
    method Store(x: PluginInstance)
      requires Valid() && Name(x.cls) !in known
      modifies this
      ensures Valid()
      ensures plugins == old(plugins)[Name(x.cls) := x] && known == old(known) + {Name(x.cls)}
      ensures options == old(options)[Ext(x) := OptionsOf(old(options), Ext(x)) + {x}]
      ensures nextId == old(nextId) && facadeCount == old(facadeCount)
      ensures SameStartup(old(er), old(startupOrder), old(collected), old(initialized))
    {
      RegisterKeeps(plugins, known, options, er, startupOrder, collected, initialized, x);
      plugins := plugins[Name(x.cls) := x];
      known := known + {Name(x.cls)};
      options := options[Ext(x) := OptionsOf(options, Ext(x)) + {x}];
    }

    /** `init_all_plugins`: initialises every registered plugin, stopping at the first error. */
    method InitAllPlugins() returns (r: Result<(), RegistryError>)
      requires Valid()
      modifies this
      ensures Valid()
      ensures SameRegistrations(old(plugins), old(known), old(options), old(nextId), old(facadeCount))
      ensures Extends(old(er), old(startupOrder), old(collected), old(initialized))
      ensures r.Ok? ==> forall n :: n in known && IsEnabled(plugins[n].cls) ==> plugins[n] in collected
      ensures r.Err? ==> !r.error.UnknownExtensionPoint? && !r.error.DuplicatePluginDefinition?
      ensures forall x :: x in initialized && x !in old(initialized) ==> Eager(x.cls)
    {
      var todo := known;
      while todo != {}
        invariant todo <= known
        invariant Valid()
        invariant SameRegistrations(old(plugins), old(known), old(options), old(nextId), old(facadeCount))
        invariant Extends(old(er), old(startupOrder), old(collected), old(initialized))
        invariant forall n :: n in known - todo && IsEnabled(plugins[n].cls) ==> plugins[n] in collected
        invariant forall x :: x in initialized && x !in old(initialized) ==> Eager(x.cls)
        decreases todo
      {
        var n :| n in todo;
        var res := InitPlugin(n, {}, false);
        if res.Err? {
          return Err(res.error);
        }
        todo := todo - {n};
      }
      return Ok(());
    }

    /**
     * `shutdown_all_plugins`: the outcomes of shutting down the startup order
     * from its end; an exception is logged and the walk goes on.
     */
    method ShutdownAllPlugins() returns (outs: seq<ShutdownOutcome>)
      requires Valid()
      ensures outs == ShutdownPlan(startupOrder, initialized, er)
      ensures OutcomePlugins(outs) == Reverse(InitializedIn(startupOrder, initialized))
      ensures forall o :: o in outs ==> !o.LookupFailed? && o.value == o.plugin.cls.initValue
      ensures forall o :: o in outs ==> (o.ShutdownRaised? <==> o.plugin.cls.shutdownRaises)
    {
      var i := |startupOrder|;
      outs := [];
      while i > 0
        invariant 0 <= i <= |startupOrder|
        invariant outs == ShutdownPlan(startupOrder[i..], initialized, er)
      {
        i := i - 1;
        assert startupOrder[i..][1..] == startupOrder[i + 1..];
        outs := outs + ShutdownStep(startupOrder[i], initialized, er);
      }
      assert startupOrder[0..] == startupOrder;
      ShutdownReverseOrder(startupOrder, initialized, er);
      ShutdownValues(startupOrder, initialized, er);
    }

    /** Initialises a plugin already committed without a value and stores what `initialize` returns. */
    method InitializeCollected(p: PluginInstance)
      requires Valid() && p in collected && p !in initialized
      modifies this
      ensures Valid()
      ensures SameRegistrations(old(plugins), old(known), old(options), old(nextId), old(facadeCount))
      ensures er == old(er)[Ext(p) := Entry(p, p.cls.initValue)]
      ensures initialized == old(initialized) + {p}
      ensures startupOrder == old(startupOrder) && collected == old(collected)
    {
      InitializeKeeps(plugins, er, startupOrder, collected, initialized, p);
      er := er[Ext(p) := Entry(p, p.cls.initValue)];
      initialized := initialized + {p};
    }

    /**
     * `get_extension(point, v)` for a point name: the value at the point,
     * initialising a plugin that has not run yet now. A plugin committed
     * lazily is initialised here too.
     */
    method GetExtension(ext: string) returns (r: Result<Value, RegistryError>)
      requires Valid()
      modifies this
      ensures Valid()
      ensures SameRegistrations(old(plugins), old(known), old(options), old(nextId), old(facadeCount))
      ensures r == Err(UnknownExtensionPoint(ext)) <==> ext !in old(er) && !HasEnabledOption(old(options), ext)
      ensures r.Ok? ==> ext in er && er[ext].plugin in initialized && r.value == er[ext].plugin.cls.initValue
      ensures ext in old(er) ==>
        r == Ok(old(er)[ext].plugin.cls.initValue) && ext in er && er[ext].plugin == old(er)[ext].plugin
    {
      var hit: Entry;
      if ext in er {
        hit := er[ext];
        assert hit.plugin in collected;
      } else {
        var found := FindPluginForExt(ext);
        if found.None? {
          return Err(UnknownExtensionPoint(ext));
        }
        hit := found.value;
        assert hit.plugin in options[ext];
        assert hit.plugin !in collected;
      }
      var p := hit.plugin;
      assert Ext(p) == ext && RegisteredIn(plugins, p) && IsEnabled(p.cls);
      if hit.value == Null && p !in initialized {
        if p in collected {
          InitializeCollected(p);
          hit := er[ext];
        } else {
          var res := InitPlugin(Name(p.cls), {}, true);
          if res.Err? {
            return Err(res.error);
          }
          hit := res.value.value;
        }
      }
      return Ok(hit.value);
    }

    /**
     * `get_extension` as written: a plugin committed lazily is handed back
     * to `_init_plugin`, which returns its stored entry unchanged because the
     * plugin is already collected, so the caller gets `None`.
     */
    method GetExtensionAsWritten(ext: string) returns (r: Result<Value, RegistryError>)
      requires Valid()
      modifies this
      ensures Valid()
      ensures SameRegistrations(old(plugins), old(known), old(options), old(nextId), old(facadeCount))
      ensures r == Err(UnknownExtensionPoint(ext)) <==> ext !in old(er) && !HasEnabledOption(old(options), ext)
      ensures ext in old(er) && old(er)[ext].plugin !in old(initialized) ==>
        r == Ok(Null) && SameStartup(old(er), old(startupOrder), old(collected), old(initialized))
    {
      var hit: Entry;
      if ext in er {
        hit := er[ext];
        assert hit.plugin in collected;
      } else {
        var found := FindPluginForExt(ext);
        if found.None? {
          return Err(UnknownExtensionPoint(ext));
        }
        hit := found.value;
        assert hit.plugin in options[ext];
        assert hit.plugin !in collected;
      }
      var p := hit.plugin;
      assert Ext(p) == ext && RegisteredIn(plugins, p) && IsEnabled(p.cls);
      if hit.value == Null && p !in initialized {
        var res := InitPlugin(Name(p.cls), {}, true);
        if res.Err? {
          return Err(res.error);
        }
        hit := res.value.value;
      }
      return Ok(hit.value);
    }

    /**
     * `set_extension(point, init_fn, shutdown_fn, dependencies, v)`: registers,
     * without initialising, a new lazy `FacadePlugin` class for the point.
     */
    method SetExtension(ext: string, initValue: Value, shutdownRaises: bool, dependencies: seq<string>)
      returns (r: Result<PluginInstance, RegistryError>)
      requires Valid()
      modifies this
      ensures Valid()
      ensures facadeCount == old(facadeCount) + 1
      ensures r.Ok? ==> r.value.cls == FacadeClass(old(facadeCount), ext, initValue, shutdownRaises, dependencies)
      ensures FacadeName(ext) !in old(known) ==>
        r.Ok? && plugins == old(plugins)[FacadeName(ext) := r.value] && Ext(r.value) == ext
        && SameStartup(old(er), old(startupOrder), old(collected), old(initialized))
      ensures FacadeName(ext) in old(known) ==> plugins == old(plugins) && options == old(options)
      ensures FacadeName(ext) in old(known) && old(plugins)[FacadeName(ext)].cls.ty != Facade(old(facadeCount))
              && Facade(old(facadeCount)) !in old(plugins)[FacadeName(ext)].cls.bases ==>
        r == Err(DuplicatePluginDefinition(FacadeName(ext)))
    {
      var c := FacadeClass(facadeCount, ext, initValue, shutdownRaises, dependencies);
      facadeCount := facadeCount + 1;
      FacadeClassShape(facadeCount - 1, ext, initValue, shutdownRaises, dependencies);
      r := RegisterPlugin(c, false);
    }
  }

  function FacadeName(ext: string): string {
    "SetExtension|" + ext + "|"
  }

  /** The `FacadePlugin` class one `set_extension` call defines. */
  function FacadeClass(serial: nat, ext: string, initValue: Value, shutdownRaises: bool, dependencies: seq<string>): PluginClass {
    PluginClass(Facade(serial), {}, "scitrera_app_framework.core.plugins", "FacadePlugin",
                Some(FacadeName(ext)), Some(ext), None, Some(dependencies), Some(false), map[],
                initValue, shutdownRaises)
  }

  /** A facade plugin is named after its point, serves it, is enabled and lazy, and depends on what it was given. */
  lemma FacadeClassShape(serial: nat, ext: string, initValue: Value, shutdownRaises: bool, dependencies: seq<string>)
    ensures var c := FacadeClass(serial, ext, initValue, shutdownRaises, dependencies);
            Name(c) == FacadeName(ext) && ExtensionPoint(c) == ext && IsEnabled(c) && !Eager(c)
            && Dependencies(c) == dependencies && c.initValue == initValue
  {
  }

  /** Facade plugins for different points have different names. */
  lemma FacadeNamesDistinct(e1: string, e2: string)
    requires e1 != e2
    ensures FacadeName(e1) != FacadeName(e2)
  {
    var p := "SetExtension|";
    if |e1| == |e2| {
      var i :| 0 <= i < |e1| && e1[i] != e2[i];
      assert FacadeName(e1)[|p| + i] == e1[i];
      assert FacadeName(e2)[|p| + i] == e2[i];
    } else {
      assert |FacadeName(e1)| != |FacadeName(e2)|;
    }
  }

  /**
   * A lazy plugin registered with `init=True`: `get_extension` as written
   * returns `None` without initialising it; the corrected one returns what
   * its `initialize` produces.
   */
  method LazyExtensionScenario() returns (asWritten: Result<Value, RegistryError>, corrected: Result<Value, RegistryError>)
    ensures asWritten == Ok(Null)
    ensures corrected == Ok(Str("lazy_value"))
  {
    var reg := new Registry();
    var c := PluginClass(Declared("tests.LazyPlugin"), {}, "tests", "LazyPlugin", None, Some("lazy-ext"),
                         None, None, Some(false), map[], Str("lazy_value"), false);
    var x := reg.RegisterPlugin(c, true);
    asWritten := reg.GetExtensionAsWritten("lazy-ext");
    corrected := reg.GetExtension("lazy-ext");
  }

  /**
   * Two plugins that depend on each other's extension point, registered
   * without `init`: initialising the first resolves the second, whose own
   * dependency is the point already being resolved, so the circular
   * dependency is reported by the second with both points in the history.
   */
  method CircularDependencyScenario() returns (r: Result<Option<Entry>, RegistryError>)
    ensures r == Err(CircularDependency("a", "tests.B", {"a", "b"}))
  {
    var reg := new Registry();
    var a := PluginClass(Declared("tests.A"), {}, "tests", "A", None, Some("a"),
                         None, Some(["b"]), None, map[], Null, false);
    var b := PluginClass(Declared("tests.B"), {}, "tests", "B", None, Some("b"),
                         None, Some(["a"]), None, map[], Null, false);
    assert Name(a) == "tests.A" && Name(b) == "tests.B";
    assert "tests.A" != "tests.B" by { assert "tests.A"[6] != "tests.B"[6]; }
    var xa := reg.RegisterPlugin(a, false);
    var xb := reg.RegisterPlugin(b, false);
    assert OptionsOf(reg.options, "b") == {PluginInstance(1, b)};
    assert PluginInstance(0, a) in OptionsOf(reg.options, "a");
    assert reg.er == map[] && reg.collected == {};
    assert reg.plugins["tests.A"] == PluginInstance(0, a);
    assert NestedCycle(reg.er, reg.options, "b", {} + {"a"}, PluginInstance(1, b));
    assert {} + {"a"} + {"b"} == {"a", "b"};
    r := reg.InitPlugin("tests.A", {}, false);
  }
}
