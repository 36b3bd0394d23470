# scitrera-app-framework: a verified model of its core

This project models the core of `scitrera_app_framework`, a Python application framework, in Dafny. The core is built from four parts:

- **A layered configuration store.** `Variables` (`api/variables.py`) and `Variables2` (`api/variables2.py`, the class the package exports as `Variables`) both work the same way:
  - Each store keeps an ordered list of lookup sources: the process environment (read upper-cased), a local overlay, caller-supplied sources and a tier of fallback defaults.
  - It also keeps a per-key coercion table and the set of known keys.
  - A read scans the sources in order, the first source that answers wins, and the registered coercion is then applied.
- **A plugin and extension registry** (`core/plugins.py`, built over the `Plugin` defaults of `api/plugins.py`):
  - Plugins register by name and are offered per extension point.
  - `_init_plugin` resolves dependencies recursively, commits a plugin to its point and records the startup order.
  - `get_extension` resolves lazily, and shutdown walks the startup order backwards.
- **Framework glue** (`core/core.py`): the default store, shutdown hooks, the stateful root and working path, strategy loading, app-name derivation and redaction of logged variables.
- **Helpers:**
  - boolean and CSV parsing (`util/parsing.py`);
  - type-name resolution and type discovery (`util/imports.py`);
  - Kubernetes env-var lists, pod phases and DNS names (`k8s/util.py`);
  - the multi-tenant store provider (`ext_plugins/muti_tenant.py`);
  - the launcher's manifest update and argument rules (`slaunch/deploy.py`, `slaunch/main.py`).

Python values are modelled by `PyValues.Value`: `None`, booleans, integers, strings, lists and opaque objects, with Python's truthiness and `str()`. The process environment is an immutable map, read through ASCII upper-casing. Coercion functions (`type_fn`) are total Dafny functions on values. Plugins are records that carry:

- a name, an extension point, an enabled flag, an eager flag and a dependency list;
- the value their `initialize` returns and whether their `shutdown` raises.

State that the source updates in place is modelled by Dafny classes:

- the two stores (`VariablesV1.Variables`, `VariablesV2.Variables2`);
- the registry (`PluginRegistry.Registry`);
- the module globals of `core.py` (`Framework.Globals`);
- the tenant provider (`MultiTenant.Provider`);
- Kubernetes env lists (`K8s.EnvList`, `K8s.Container`).

Their methods state their whole new state. Loops in the source are `while` loops with invariants:

- the source scan of a read;
- the prefix comprehensions;
- `find_types_in_modules`;
- the merge of `merge_env_vars`;
- the shutdown-hook loop;
- the launcher's argument scan and library resolution.

Each of these loops is proved against a specification function, whose properties are proved as lemmas.

The model follows the code, except where a member named as corrected gives the evidently intended behaviour beside a member that models the code as written. Tests that exercise versions of functions the source files here do not contain are not followed: the model follows the source. The departures are the six rows of "## Findings" and one use of a corrected member:

- The exported store looks up a read's coercion under the matched value. `VariablesV2.Variables2.GetAsWritten` and `VariablesV2.ReadAsWritten` model that, and the rest of the model uses the corrected lookup by key (`VariablesV2.Read2`).
- `register_plugin` tests a name through the store's lower-casing `__contains__`, so a mixed-case name is never found. `PluginRegistry.MixedCaseNameRegisteredTwice` models that; `PluginRegistry.Registry.RegisterPlugin`, `Store` and `SetExtension` test the stored name verbatim.
- `get_extension` returns `None` for a lazily committed plugin. `PluginRegistry.Registry.GetExtensionAsWritten` models that; `PluginRegistry.Registry.GetExtension` initialises the plugin.
- The environment import lowers the prefix and so finds nothing held only in the environment. `VariablesV2.Variables2.ImportFromEnvByPrefixAsWritten` models that; `ImportFromEnvByPrefix` matches the prefix as given.
- `muti_tenant.py` cannot run as written. Its provider is modelled as evidently intended, over the full store of `api/variables.py`.
- `update_manifest` reads the libraries manifest for a library but always writes the root one. `Deploy.UpdateManifestFilesAsWritten` models that; `deploy_app`/`deploy_lib` are mapped to the corrected `Deploy.UpdateManifestFiles`.
- `load_strategy` calls the environment import as written. `Framework.LoadStrategyAsWritten` models that call, and `Framework.LoadStrategy` the same steps over the corrected import.

## Model

| member | source | states |
|---|---|---|
| VariablesV1.IsEppShape | scitrera_app_framework/api/variables.py:8-19 | An internal (epp) key is exactly a string `=\|` + inner + `\|` with a non-empty inner part |
| VariablesV1.IsEppExamples | scitrera_app_framework/api/variables.py:8-19 | `=\|x\|` is an epp key; `=\|\|`, `=\|test`, `None` and `123` are not |
| VariablesV1.FirstMatchIsFirstHit | scitrera_app_framework/api/variables.py:147-152 | The scan returns exactly the answer of the first source that answers, and nothing when none does |
| VariablesV1.FirstMatchAppend | scitrera_app_framework/api/variables.py:147-152 | Scanning a concatenation is scanning the first list, then the second when the first is silent |
| VariablesV1.LayoutShape | scitrera_app_framework/api/variables.py:72-102 | Each placement's source list is its head tiers, then the added sources in order, then its trailing tiers; the environment is present unless the placement is `IGNORED` |
| VariablesV1.CheckPlacement | scitrera_app_framework/api/variables.py:103-104 | A member of `EnvPlacement` is accepted as itself; anything else gives the `ValueError` |
| VariablesV1.AddSourcePosition | scitrera_app_framework/api/variables.py:372-384 | Inserting at `len(sources) - bottom_offset` gives the layout with the new source after every earlier added source; nothing else moves |
| VariablesV1.SilentScan | scitrera_app_framework/api/variables.py:147-152 | Added sources that do not hold the key contribute no match |
| VariablesV1.LocalOutranks | scitrera_app_framework/api/variables.py:72-102 | A key in the local overlay reads from it under every placement except `TOP` with the key in the environment |
| VariablesV1.AddedSourcesInOrder | scitrera_app_framework/api/variables.py:72-102 | A key absent from the overlay is answered by the earliest added source holding it, unless the environment outranks it under `TOP` |
| VariablesV1.LowerTiers | scitrera_app_framework/api/variables.py:72-102 | With no overlay or added source holding the key: environment before defaults under `TOP`/`BOTTOM2`, defaults before environment under `BOTTOM`, defaults alone under `IGNORED` |
| VariablesV1.NestedShadowsLowerTiers | scitrera_app_framework/api/variables.py:147-152 | A nested `Variables` source answers every key, so tiers after it are never consulted for keys no earlier source holds |
| VariablesV1.Read | scitrera_app_framework/api/variables.py:131-161 | A read is the match coerced by the key's registered function, or the caller's default when nothing matches |
| VariablesV1.AllAbsorbedKeys | scitrera_app_framework/api/variables.py:360-370 | The absorbed keys are exactly the keys that some source offers |
| VariablesV1.KeyFilterRestores | scitrera_app_framework/api/variables.py:246-252 | Dropping the prefix without lower-casing is invertible: prefix + result key gives the known key back |
| VariablesV1.Prefixed | scitrera_app_framework/api/variables.py:202-227 | The prefixed part of a dict holds exactly its entries whose keys start with the prefix, with their values |
| VariablesV1.PrefixedStep | scitrera_app_framework/api/variables.py:202-227 | About `Prefixed`: handling one more entry adds it to the prefixed part exactly when its key has the prefix |
| VariablesV1.Variables.constructor | scitrera_app_framework/api/variables.py:52-104 | A new store has the layout of its placement over the given sources, the overlay `local_provider()` returns, empty defaults and coercions, and the overlay's and the given sources' keys as known keys |
| VariablesV1.Variables.Create | scitrera_app_framework/api/variables.py:52-104 | Succeeds exactly for a member of `EnvPlacement`, giving a fresh valid store with that placement, the provided overlay and the same known keys as the constructor; any other argument is the `ValueError` |
| VariablesV1.Variables.Get | scitrera_app_framework/api/variables.py:131-164 | The loop returns `Read` of the current state and records the key exactly when it matched |
| VariablesV1.Variables.Environ | scitrera_app_framework/api/variables.py:106-129 | The default (when given) and the coercion (unless `None`) are registered and the key recorded; the result is a read in the new state |
| VariablesV1.Variables.Set | scitrera_app_framework/api/variables.py:291-300 | The overlay maps the key to the value, the key is known, the value is returned, and nothing else changes |
| VariablesV1.Variables.SetItem | scitrera_app_framework/api/variables.py:314-317 | The same write as `Set` |
| VariablesV1.Variables.Update | scitrera_app_framework/api/variables.py:302-312 | The overlay gains every pair of both maps, `dict_values` winning over `kwargs`, and all their keys are known |
| VariablesV1.Variables.SetTypeFn | scitrera_app_framework/api/variables.py:256-264 | The key's coercion becomes the given one, an explicit `None` included |
| VariablesV1.Variables.SetDefaultValue | scitrera_app_framework/api/variables.py:266-274 | The defaults tier maps the key to the value |
| VariablesV1.Variables.SetTypeDefault | scitrera_app_framework/api/variables.py:276-289 | Each of default and coercion is stored exactly when it is not the unset sentinel |
| VariablesV1.Variables.GetOrSet | scitrera_app_framework/api/variables.py:326-341 | `value_fn` runs exactly when the key is absent from the overlay; an existing value is returned and never overwritten |
| VariablesV1.Variables.GetOrSetDefault | scitrera_app_framework/api/variables.py:343-358 | The same on the defaults tier |
| VariablesV1.Variables.AddSource | scitrera_app_framework/api/variables.py:372-384 | The source joins the added ones at the end, the layout is rebuilt accordingly, and its keys are absorbed |
| VariablesV1.Variables.GetByPrefix | scitrera_app_framework/api/variables.py:229-254 | One entry per known key with the separator-terminated prefix, under its filtered name, holding a plain read of that key |
| VariablesV1.Variables.ImportFromDictByPrefix | scitrera_app_framework/api/variables.py:202-227 | Every prefixed source entry becomes a registered default and a known key, then the prefix query runs |
| VariablesV1.Variables.RegisterPrefixed | scitrera_app_framework/api/variables.py:202-227 | The defaults gain exactly the prefixed entries and the known keys their names |
| VariablesV1.Variables.ExportAllVariables | scitrera_app_framework/api/variables.py:386-394 | Every known key (less epp keys when asked) maps to a plain read of it |
| VariablesV1.SetThenRead | scitrera_app_framework/api/variables.py:291-300 | About `Read`: after `set(k, x)` a read of `k` gives `x` coerced, unless the environment holds `k` under `TOP` |
| VariablesV1.EnvironDefaultThenRead | scitrera_app_framework/api/variables.py:106-129 | A default registered by `environ` answers a later read when no overlay, added source or outranking environment entry holds the key |
| VariablesV2.ScanAppend | scitrera_app_framework/api/variables2.py:68-71 | Scanning a concatenation is scanning the first part, then the second when the first finds nothing |
| VariablesV2.ScanSilent | scitrera_app_framework/api/variables2.py:68-71 | A list of added sources finds nothing exactly when none holds the key |
| VariablesV2.DefaultsOutrankAdded | scitrera_app_framework/api/variables2.py:156-158 | A source added with `add_source` is consulted only for keys no tier before it, defaults included, holds |
| VariablesV2.EnvThenLocal | scitrera_app_framework/api/variables2.py:33-38 | The environment outranks every source, and the local overlay every source but the environment |
| VariablesV2.CoerceByValue | scitrera_app_framework/api/variables2.py:73-77 | The coercion registered under the matched value is applied; an unhashable (list) value raises `TypeError` |
| VariablesV2.ReadAsWritten | scitrera_app_framework/api/variables2.py:63-79 | A read as written: `None` without a match, otherwise the match coerced by the function registered under the value |
| VariablesV2.Read2 | scitrera_app_framework/api/variables2.py:63-79 | A read as intended: `None` without a match, otherwise the match coerced by the function registered under the key |
| VariablesV2.CoercionByValueCounterexample | scitrera_app_framework/api/variables2.py:74 | About `ReadAsWritten` and `Read2`: with `ext_parse_bool` registered for a key and `false` in the environment, the read as written is the truthy string `'false'`, the corrected read `False` |
| VariablesV2.ListValueRaises | scitrera_app_framework/api/variables2.py:74 | As written, a read whose match is a list raises |
| VariablesV2.ContainsIgnoresCase | scitrera_app_framework/api/variables2.py:142-144 | `__contains__` depends only on the lower-cased key |
| VariablesV2.ContainsMissesMixedCaseKeys | scitrera_app_framework/api/variables2.py:137-144 | A known key stored verbatim with an upper-case letter is not reported contained unless the environment has it |
| VariablesV2.NamesWithPrefix | scitrera_app_framework/api/variables2.py:124 | Exactly the names that start with the prefix string |
| VariablesV2.ByPrefixNames | scitrera_app_framework/api/variables2.py:114-124 | The result names are the prefixed known keys, with the prefix removed when dropping and lower-cased when asked |
| VariablesV2.DroppedPrefixNamesDistinct | scitrera_app_framework/api/variables2.py:119-124 | With the prefix dropped, distinct prefixed keys give distinct result names, so no entry is lost |
| VariablesV2.Variables2.constructor | scitrera_app_framework/api/variables2.py:28-38 | The sources are environment, overlay, the given sources, defaults; nothing is known and the given sources' keys are not absorbed |
| VariablesV2.Variables2.ScanSources | scitrera_app_framework/api/variables2.py:68-71 | The loop returns the first source's answer (`Scan`) and changes nothing |
| VariablesV2.Variables2.Get | scitrera_app_framework/api/variables2.py:63-79 | Returns `Read2` of the current state; nothing changes |
| VariablesV2.Variables2.GetAsWritten | scitrera_app_framework/api/variables2.py:63-79 | Returns `ReadAsWritten` of the current state; nothing changes |
| VariablesV2.Variables2.Environ | scitrera_app_framework/api/variables2.py:40-57 | The effective key (the `environment_variable` if non-empty) is always recorded, its default and coercion registered only when not `None`; the result is a read in the new state |
| VariablesV2.Variables2.SetTypeFn | scitrera_app_framework/api/variables2.py:59-61 | The key's coercion becomes the given one |
| VariablesV2.Variables2.Set | scitrera_app_framework/api/variables2.py:126-129 | The overlay maps the key verbatim to the value, the key is recorded, and the value is returned |
| VariablesV2.Variables2.SetItem | scitrera_app_framework/api/variables2.py:137-140 | The same write as `Set` |
| VariablesV2.Variables2.Update | scitrera_app_framework/api/variables2.py:131-135 | Every pair of both maps is set, `dict_values` winning over `kwargs` |
| VariablesV2.Variables2.GetOrSet | scitrera_app_framework/api/variables2.py:149-154 | `default_fn` runs exactly when the key is absent from the overlay, its result is stored, and the key is not recorded |
| VariablesV2.Variables2.AddSource | scitrera_app_framework/api/variables2.py:156-158 | The source is appended after the defaults tier and no keys are absorbed |
| VariablesV2.Variables2.GetByPrefix | scitrera_app_framework/api/variables2.py:114-124 | The names are `ByPrefixNames` of the known keys for the (optionally lower-cased) prefix, each holding a read of its key |
| VariablesV2.Variables2.QueryByPrefix | scitrera_app_framework/api/variables2.py:119-124 | The loop builds one entry per prefixed known key under its filtered name, holding `Read2` of that key |
| VariablesV2.Variables2.RecordEnvNames | scitrera_app_framework/api/variables2.py:92-94 | About `NamesWithPrefix`: the environment variables named with the prefix are all recorded as known keys; nothing else changes |
| VariablesV2.Variables2.ImportFromEnvByPrefixAsWritten | scitrera_app_framework/api/variables2.py:84-95 | The prefixed environment names are recorded, then queried with the prefix lower-cased: the result names are the prefixed known keys with the prefix dropped (case kept), each holding a read of its key |
| VariablesV2.Variables2.ImportFromEnvByPrefix | scitrera_app_framework/api/variables2.py:84-95 | As intended: the recorded names are matched with the prefix as given and returned lower-cased |
| VariablesV2.Variables2.ExportAllVariables | scitrera_app_framework/api/variables2.py:160-161 | Every known key maps to a read of it |
| VariablesV2.PrefixCaseCounterexample | scitrera_app_framework/api/variables2.py:84-95 | Over the recorded names `MY_STRATEGY_TYPE` and `MY_STRATEGY_OPTION1`, the query as written finds nothing, the intended one yields `type` and `option1` |
| VariablesV2.StrategyImportScenario | scitrera_app_framework/api/variables2.py:84-95 | On a fresh store configured with `MY_STRATEGY_TYPE` and `MY_STRATEGY_OPTION1`, the import as written returns `{}` and the intended one the names `type` and `option1` |
| Parsing.ParseBool | scitrera_app_framework/util/parsing.py:1-17 | A bool is returned as is; any other falsy value is false; otherwise true iff the lower-cased `str` contains `1`, `t` or `y` |
| Parsing.ParseBoolIgnoresCase | scitrera_app_framework/util/parsing.py:16-17 | About `ParseBool`: upper- and lower-cased spellings of a string parse alike |
| Parsing.ParseBoolTrueWords | scitrera_app_framework/util/parsing.py:5-7 | `true`, `t`, `yes`, `y`, `1` parse true, in any case |
| Parsing.ParseBoolFalseWords | scitrera_app_framework/util/parsing.py:5-15 | `false`, `f`, `no`, `n`, `0`, the empty string, `None` and `0` parse false, in any case |
| Parsing.ParseBoolIsCharacterTest | scitrera_app_framework/util/parsing.py:16-17 | The test is by character: `2` and `nope` are false, `10` and `fatal` true |
| Parsing.StripNonEmptyIsFilterThenStrip | scitrera_app_framework/util/parsing.py:31 | About `StripNonEmpty`: the comprehension is filtering out empty parts, then stripping each kept part, in order |
| Parsing.NonEmptyParts | scitrera_app_framework/util/parsing.py:31 | Exactly the non-empty parts, never more than the input |
| Parsing.StripEach | scitrera_app_framework/util/parsing.py:31 | Each part stripped, position by position |
| Parsing.StripListItems | scitrera_app_framework/util/parsing.py:29-30 | The list branch succeeds exactly when every truthy element is a string, and yields at most one part per element |
| Parsing.StripListItemsOfStrings | scitrera_app_framework/util/parsing.py:29-31 | A list of strings parses exactly as the string branch parses its parts |
| Parsing.ParseCsv | scitrera_app_framework/util/parsing.py:20-31 | Falsy gives `[]`; a list goes through the list branch; anything else is split on `,`, filtered and stripped, never giving more parts than the split |
| Parsing.ParseCsvKeepsBlankParts | scitrera_app_framework/util/parsing.py:31 | `"a, ,b"` parses to `["a", "", "b"]`: the emptiness test runs before stripping |
| Parsing.ParseCsvSet | scitrera_app_framework/util/parsing.py:34-43 | Succeeds exactly when `ext_parse_csv` does, and holds exactly its elements |
| Imports.SplitTypeName | scitrera_app_framework/util/imports.py:97-105 | Fails exactly for an empty or dot-free name; otherwise module + `.` + class is the name and the class part has no dot |
| Imports.TypeByName | scitrera_app_framework/util/imports.py:86-123 | A falsy name raises `ValueError`; a success is a string name whose split finds a class in an importable module that is a subclass of the parent |
| Imports.TypeByNameFound | scitrera_app_framework/util/imports.py:107-123 | A dotted name naming a class of an importable module resolves to it when it is a subclass, and raises `TypeError` otherwise |
| Imports.SplitSuffixUnique | scitrera_app_framework/util/imports.py:104-105 | A name has one module part and one dot-free class part |
| Imports.FoundNoDuplicates | scitrera_app_framework/util/imports.py:67-81 | No class is yielded twice |
| Imports.FoundMembers | scitrera_app_framework/util/imports.py:70-81 | About `Found`: a class is yielded exactly when some module exposes it and it passes the subclass, abstract and base-type filter |
| Imports.BaseTypeExclusion | scitrera_app_framework/util/imports.py:76-79 | With `exclude_base_type` the base type is never yielded; without it, it is yielded when exposed and not excluded as abstract |
| Imports.FindTypesInModules | scitrera_app_framework/util/imports.py:52-83 | The nested loop yields exactly `Found` over the modules' attributes, in order |
| PluginApi.Defaults | scitrera_app_framework/api/plugins.py:10-68 | Without overrides: the name is `module.ClassName`, the extension point is the name, the plugin is enabled and eager and has no dependencies |
| PluginApi.DefaultNamesDistinct | scitrera_app_framework/api/plugins.py:15-19 | Two classes of one module with different names get different default plugin names |
| PluginApi.OptionTarget | scitrera_app_framework/api/plugins.py:101 | Without `self_attr` the target is the plugin's name; with it, the lookup succeeds exactly when the attribute exists |
| PluginApi.EnabledOptionPattern | scitrera_app_framework/api/plugins.py:89-102 | True iff the configured value (the default registered first) equals the target; a missing attribute raises and changes nothing |
| PluginRegistry.Registry.constructor | scitrera_app_framework/core/plugins.py:10-20 | All registry stores start empty and no plugin is collected or initialised |
| PluginRegistry.Registry.FindPluginForExt | scitrera_app_framework/core/plugins.py:23-36 | The committed entry when there is one; otherwise a candidate exists exactly when an option is enabled, and it is an enabled option with no value |
| PluginRegistry.Registry.Commit | scitrera_app_framework/core/plugins.py:86-98 | The plugin is collected, initialised iff eager or wanted now, committed with its value (else `None`), and appended to the startup order once |
| PluginRegistry.Registry.InitPlugin | scitrera_app_framework/core/plugins.py:39-98 | Unknown name raises; collected returns the stored entry unchanged; disabled returns `None` untouched; otherwise dependencies first, then a commit at the end of the startup order; registry invariants are kept. Errors: a first dependency without a plugin is `MissingDependency`; one whose point is being resolved (this plugin's included) is `CircularDependency` naming this plugin; one level down, the dependency's only candidate reports the cycle it closes; with no dependencies, a point already committed is `DuplicateExtensionPoint` naming its owner |
| PluginRegistry.CircularDependencyScenario | scitrera_app_framework/core/plugins.py:71-77 | Plugins `A` (point `a`, needs `b`) and `B` (point `b`, needs `a`): initialising `A` fails with the circular dependency on `a`, reported by `tests.B` with history `{a, b}` |
| PluginRegistry.Registry.InitDependencies | scitrera_app_framework/core/plugins.py:69-77 | On success every dependency's point is committed; only eager plugins are newly initialised. No dependencies: success with nothing changed. The first dependency decides the error when it has no plugin (`MissingDependency`), names a point being resolved (`CircularDependency` with this plugin and the history), or has one enabled candidate whose own first dependency closes a cycle |
| PluginRegistry.Registry.InitDependency | scitrera_app_framework/core/plugins.py:71-77 | A dependency with neither a committed plugin nor an enabled candidate is `MissingDependency`; one in the requested-by chain is `CircularDependency` naming the requester and the chain, both with nothing changed; a sole candidate whose first dependency closes a cycle reports it; on success the point is committed |
| PluginRegistry.Registry.RegisterPlugin | scitrera_app_framework/core/plugins.py:120-135 | A new name is stored and offered at its point; a known name held by another class raises; with `init` the registered instance is committed |
| PluginRegistry.Registry.Store | scitrera_app_framework/core/plugins.py:127-128 | The instance is registered under its name and added to its point's candidates; the startup record is unchanged |
| PluginRegistry.Registry.InitAllPlugins | scitrera_app_framework/core/plugins.py:161-167 | On success every registered enabled plugin is collected; only eager plugins are newly initialised |
| PluginRegistry.Registry.ShutdownAllPlugins | scitrera_app_framework/core/plugins.py:101-117 | The outcomes reach exactly the initialised plugins in reverse startup order, each with its stored value, a raising shutdown not stopping the walk |
| PluginRegistry.Registry.InitializeCollected | scitrera_app_framework/core/plugins.py:154-155 | A collected, uninitialised plugin is initialised and its entry holds what `initialize` returns |
| PluginRegistry.Registry.GetExtension | scitrera_app_framework/core/plugins.py:138-158 | Raises "unknown extension point" exactly when nothing is committed and no option is enabled; a success is the value of an initialised plugin at the point |
| PluginRegistry.Registry.GetExtensionAsWritten | scitrera_app_framework/core/plugins.py:138-158 | As written, a lazily committed plugin yields `None` and nothing changes |
| PluginRegistry.Registry.SetExtension | scitrera_app_framework/core/plugins.py:170-206 | A new lazy facade class for the point is registered, not initialised. The name test is the corrected, verbatim one, so a second call for the same point is refused as `DuplicatePluginDefinition`, where the code as written registers a second facade as another option of that point |
| PluginRegistry.ShutdownReverseOrder | scitrera_app_framework/core/plugins.py:108-115 | About `ShutdownPlan`: shutdown reaches exactly the initialised plugins, in reverse start order |
| PluginRegistry.ShutdownValues | scitrera_app_framework/core/plugins.py:111-112 | An initialised plugin's outcome carries the value committed for it |
| PluginRegistry.RegisterKeeps | scitrera_app_framework/core/plugins.py:125-128 | Storing under a fresh name keeps the registry consistent |
| PluginRegistry.InitializeKeeps | scitrera_app_framework/core/plugins.py:89-95 | Initialising a plugin committed without a value keeps the registry consistent |
| PluginRegistry.CommitKeepsEntries | scitrera_app_framework/core/plugins.py:86-95 | A commit keeps every entry's plugin at its point and its value consistent with its flags |
| PluginRegistry.CommitKeepsStartup | scitrera_app_framework/core/plugins.py:95-96 | A commit keeps the startup order equal to the collected plugins, each once |
| PluginRegistry.CommitKeepsOrder | scitrera_app_framework/core/plugins.py:69-96 | After a commit every started plugin's dependencies were committed by plugins started before it |
| PluginRegistry.MixedCaseNameRegisteredTwice | scitrera_app_framework/core/plugins.py:125 | About `OptionsAfterRegisterAsWritten`: as written, registering a mixed-case name twice stores both instances as options of its point |
| PluginRegistry.FacadeClassShape | scitrera_app_framework/core/plugins.py:185-198 | A facade is named `SetExtension\|point\|`, serves the point, is enabled and lazy, and has the given dependencies |
| PluginRegistry.FacadeNamesDistinct | scitrera_app_framework/core/plugins.py:188-189 | Different points give different facade names |
| PluginRegistry.LazyExtensionScenario | scitrera_app_framework/core/plugins.py:150-158 | For a lazy plugin registered with `init=True`, `get_extension` as written returns `None`; the corrected version returns what `initialize` produces |
| Framework.Globals.constructor | scitrera_app_framework/core/core.py:17-19 | No default store and no hooks at start |
| Framework.Globals.DefaultVarsInstance | scitrera_app_framework/core/core.py:27-31 | The first call creates a fresh empty store, later calls return the same one |
| Framework.Globals.GetVariables | scitrera_app_framework/core/core.py:34-37 | A given store is returned as is; otherwise the default store |
| Framework.DefaultStoreShared | scitrera_app_framework/core/core.py:27-37 | Two default lookups give the same object; a given store is passed through |
| Framework.Globals.RegisterShutdownFunction | scitrera_app_framework/core/core.py:41-42 | The hook is appended |
| Framework.Globals.RunShutdownHooks | scitrera_app_framework/core/core.py:52-59 | Hooks are called most recent first up to the first one whose exception escapes `except Exception`; caught ones are logged; the run escapes iff some hook does |
| Framework.CallsUntilEscape | scitrera_app_framework/core/core.py:54-59 | The calls are a prefix of the pending hooks that ends at the first escaping hook, or all of them |
| Framework.CallsUntilFirstEscape | scitrera_app_framework/core/core.py:54-59 | With the first escape at `k`, exactly the first `k + 1` hooks are called |
| Framework.Warnings | scitrera_app_framework/core/core.py:58-59 | Exactly the called hooks that raise an `Exception`, in order |
| Framework.EscapesReversed | scitrera_app_framework/core/core.py:54 | Reversal keeps the escaping hooks |
| Framework.LastRegisteredRunsFirst | scitrera_app_framework/core/core.py:41-54 | The hook registered last is called first |
| Framework.TruthyOnly | scitrera_app_framework/core/core.py:202 | `filter(None, …)` never yields more components than it is given (membership is `TruthyOnlyMembers`) |
| Framework.TruthyOnlyMembers | scitrera_app_framework/core/core.py:202 | A component is kept iff it is present and truthy |
| Framework.PathJoinPlain | scitrera_app_framework/core/core.py:202 | About `PathJoin`: joining slash-free non-empty parts puts one slash between neighbours |
| Framework.PathJoinAbsoluteRestarts | scitrera_app_framework/core/core.py:202 | An absolute part discards what was joined before it |
| Framework.StatefulPathFails | scitrera_app_framework/core/core.py:202 | About `StatefulPath`: the join raises exactly when the root or a kept component is not a string |
| Framework.StatefulPathSkipsFalsy | scitrera_app_framework/core/core.py:202 | A falsy component leaves the path as if absent |
| Framework.StatefulPathPlain | scitrera_app_framework/core/core.py:202 | With plain components the path is root and components joined by single slashes |
| Framework.StatefulPathWithRunId | scitrera_app_framework/core/core.py:200-202 | A run id sits between the root and the name |
| Framework.StatefulPathWithoutRun | scitrera_app_framework/core/core.py:200-202 | Without run id or serial the path is root and name |
| Framework.StatefulPathRejectsNumbers | scitrera_app_framework/core/core.py:201-202 | An integer serial makes the join raise |
| Framework.InitStatefulRoot | scitrera_app_framework/core/core.py:186-211 | The root is a read of `STATEFUL_ROOT` with the default root registered (environment first). No root on disk: only that default and key are added. Otherwise the run id and serial are read with their defaults registered, the name is the local name or the `APP_NAME` read, and an unjoinable path raises with the tables so far. A joined path is set with the ready flag in the overlay, `SAF_STATEFUL_CHDIR` gets its default and `ext_parse_bool`, `chdir` holds exactly when that read parses true, every key read is recorded, and `is_stateful_ready` then returns the path |
| Framework.ReadStatefulRoot | scitrera_app_framework/core/core.py:194 | Only the `STATEFUL_ROOT` default and key are added; the read gives the environment value when present, else the default when no overlay or given source holds the key |
| Framework.ReadRunParts | scitrera_app_framework/core/core.py:200-201 | The run id and serial defaults are registered unless `None`, both keys are recorded, and each result is the read in the state right after its registration |
| Framework.MarkStatefulRoot | scitrera_app_framework/core/core.py:203-210 | The path and ready flag go into the overlay, the change-directory flag gets its default and `ext_parse_bool`, three keys are recorded, the flag is true exactly when the first value found parses true, and the ready root is then the path |
| Framework.ReadyAfterMarking | scitrera_app_framework/core/core.py:203-224 | About `ReadyRoot`: once root and ready flag are set, `is_stateful_ready` returns the root |
| Framework.NotReadyWithoutFlag | scitrera_app_framework/core/core.py:214-224 | Where no tier holds the ready flag, the result is `None` |
| Framework.IsStatefulReady | scitrera_app_framework/core/core.py:214-224 | Returns the root when the ready flag reads truthy, else `None`, changing nothing |
| Framework.EnvironResolution | scitrera_app_framework/core/core.py:257 | An `environ` read with a default: environment first, then the overlay, then (with no constructor source holding it) the default |
| Framework.ScanAgrees | scitrera_app_framework/core/core.py:257 | Stores agreeing on a key's tiers scan it alike |
| Framework.ReadAgrees | scitrera_app_framework/core/core.py:257 | Stores agreeing on a key's tiers read it alike |
| Framework.GetWorkingPath | scitrera_app_framework/core/core.py:241-257 | The default registered is the stateful root when ready, else the given default; the result is a read of `env_key`, so an environment value wins |
| Framework.StrategyType | scitrera_app_framework/core/core.py:232-236 | The resolved type when resolution succeeds, `None` for every caught failure |
| Framework.LoadStrategy | scitrera_app_framework/core/core.py:227-238 | Over the corrected import: the keyword arguments are the prefixed configuration, lower-cased, without `type`; the type is resolved from the `type` entry, `None` when absent or failing |
| Framework.LoadStrategyAsWritten | scitrera_app_framework/core/core.py:227-238 | Over the import as written: the same shape with the lower-cased prefix matched and names keeping their case, so when no known key starts with the lower-cased prefix there are no arguments, no type and no strategy |
| Framework.Names | scitrera_app_framework/core/core.py:307 | The names of an ordered dict, in order |
| Framework.LoweredNames | scitrera_app_framework/core/core.py:298 | The parameter names lower-cased, each once |
| Framework.LoweredNamesMembers | scitrera_app_framework/core/core.py:298 | A name appears iff it is some parameter's lower-cased name |
| Framework.Upsert | scitrera_app_framework/core/core.py:298 | About `Names`: assigning into an ordered dict keeps an existing name's place and appends a new one |
| Framework.UpperSeparatesLowered | scitrera_app_framework/core/core.py:298 | Distinct lower-case names have distinct upper-case forms |
| Framework.NormalizeParams | scitrera_app_framework/core/core.py:298 | The map's names are `LoweredNames`, each holding a read of the upper-cased name after its default is registered |
| Framework.NamedValues | scitrera_app_framework/core/core.py:307-309 | No more values than parameters, and none exactly when every parameter is unnamed |
| Framework.AppName | scitrera_app_framework/core/core.py:306-309 | The base name alone without named parameters, else base + sep + the values joined by sep |
| Framework.AppNameSplits | scitrera_app_framework/core/core.py:306-309 | With a one-character separator in no part, the name splits back into base and values |
| Framework.AppNameWithRegion | scitrera_app_framework/core/core.py:306-309 | `worker_id=1, region="us-east"` gives `test-app-1-us-east` |
| Framework.AppNameRegionUnnamed | scitrera_app_framework/core/core.py:307 | With `region` unnamed only the worker id is appended |
| Framework.AppNameUnderscore | scitrera_app_framework/core/core.py:309 | `sep="_"` gives `test-app_1` |
| Framework.AppNameWithoutParams | scitrera_app_framework/core/core.py:306-308 | Without parameters the name is the base name |
| Framework.PyStrOne | scitrera_app_framework/core/core.py:309 | `str(1)` is `1` |
| Framework.DeriveAppName | scitrera_app_framework/core/core.py:298-310 | Parameters are normalised, the derived name is registered as `APP_NAME`'s default, and the result is a read of `APP_NAME`, so a setting overrides it; the upper-cased parameter names and `APP_NAME` are recorded, and the overlay and coercions are unchanged |
| Framework.Redacted | scitrera_app_framework/core/core.py:380-382 | The logged dictionary has exactly the exported keys |
| Framework.RedactedHidesExactlySensitive | scitrera_app_framework/core/core.py:381 | A value is replaced by `(redacted)` exactly when its key contains `password` or `secret` in any case, other values are kept, and redacting twice changes nothing more |
| Framework.SensitiveIgnoresCase | scitrera_app_framework/core/core.py:381 | About `Sensitive`: sensitivity ignores case |
| Framework.SensitiveExamples | scitrera_app_framework/core/core.py:381 | `DB_PASSWORD` and `api_Secret_token` are sensitive; `USER` and `PASSWD` are not |
| K8s.MetadataName | scitrera_app_framework/k8s/util.py:7-20 | The name, or `None` without one, for a dict and an API object alike |
| K8s.MetadataNamespace | scitrera_app_framework/k8s/util.py:23-36 | The namespace, or `None` without one |
| K8s.MetadataRepresentationsAgree | scitrera_app_framework/k8s/util.py:7-36 | About `MetadataName` and `MetadataNamespace`: both readers agree on a dict and an API object with the same metadata |
| K8s.DnsNameIsDotted | scitrera_app_framework/k8s/util.py:39-50 | About `HeadlessServiceDnsName`: the name is pod, service, namespace and `svc` joined by dots |
| K8s.DnsNameSplits | scitrera_app_framework/k8s/util.py:39-50 | Dot-free names split back out of the DNS name |
| K8s.DnsNameExample | scitrera_app_framework/k8s/util.py:39-50 | `my-pod.my-service.default.svc` |
| K8s.FixedEnvVars | scitrera_app_framework/k8s/util.py:53-65 | One `{name, value}` per keyword in order, the value `str(v)`, the name upper-cased iff `key_upper` |
| K8s.FixedEnvVarNames | scitrera_app_framework/k8s/util.py:63 | About `FixedEnvVars`: with `key_upper` every name is upper case; without, the keyword as given |
| K8s.NamesOf | scitrera_app_framework/k8s/util.py:91 | The entries' names, in order |
| K8s.Dedup | scitrera_app_framework/k8s/util.py:89-94 | Each value once, at its first occurrence, nothing added |
| K8s.Position | scitrera_app_framework/k8s/util.py:89-94 | The index of a name, or the length when absent |
| K8s.Merged | scitrera_app_framework/k8s/util.py:89-94 | Every merged entry carries a name (the name order is `MergedNames`, the fields `MergedFields`) |
| K8s.MergedNames | scitrera_app_framework/k8s/util.py:89-97 | About `NamesOf`: the merged names are the input names deduplicated in first-appearance order |
| K8s.MergedFields | scitrera_app_framework/k8s/util.py:91-94 | Each merged entry holds exactly the fields some entry of its name set, with the last such value |
| K8s.FieldOfUnnamed | scitrera_app_framework/k8s/util.py:91-94 | A name no entry carries has no fields |
| K8s.FieldOfAppend | scitrera_app_framework/k8s/util.py:91-94 | A field set by a later entry takes the later value |
| K8s.MergePriority | scitrera_app_framework/k8s/util.py:87-94 | Arguments beat keywords, which beat the original list |
| K8s.MergedSnoc | scitrera_app_framework/k8s/util.py:91-94 | One more entry merges into the result so far |
| K8s.InsertStep | scitrera_app_framework/k8s/util.py:89-94 | The loop's dict follows the merge entry by entry |
| K8s.MergeEntries | scitrera_app_framework/k8s/util.py:89-97 | The loop succeeds iff every entry has a name, and then yields `Merged` |
| K8s.MergeEnvVars | scitrera_app_framework/k8s/util.py:68-99 | The given list (or a new one) is rewritten in place with the merge of original, keywords and arguments; a nameless entry raises and leaves the list untouched |
| K8s.EnvList.constructor | scitrera_app_framework/k8s/util.py:85 | A list holding the given entries |
| K8s.Container.constructor | scitrera_app_framework/k8s/util.py:120-124 | A container with the given name and env list |
| K8s.LastIndexOf | scitrera_app_framework/k8s/util.py:116 | The last container with the name, or -1 |
| K8s.PickContainer | scitrera_app_framework/k8s/util.py:116-120 | By name: the last match, `KeyError` when none; by index: from the end when negative, `IndexError` out of range |
| K8s.GetPodEnv | scitrera_app_framework/k8s/util.py:102-126 | No containers gives `None`; otherwise the picked container's env list is returned by reference, created empty when missing, nothing else touched |
| K8s.PhaseRelations | scitrera_app_framework/k8s/util.py:139-186 | About `IsRunningPhase`, `IsNotRunningPhase`, `IsActivePhase`, `IsTerminatedPhase`, `IsNotTerminatedPhase`: the negated tests are exact negations, running is active, and active is not terminated |
| K8s.NonStringPhase | scitrera_app_framework/k8s/util.py:139-186 | A non-string phase is neither running, active nor terminated |
| MultiTenant.Provider.constructor | scitrera_app_framework/ext_plugins/muti_tenant.py:17-19 | An empty cache over the given root store, tenant sources and tenant overlays |
| MultiTenant.Provider.Get | scitrera_app_framework/ext_plugins/muti_tenant.py:48-88 | A cached id returns the cached store, nothing changing; a new id caches a fresh store over the tenant's sources and its `local_provider` dict, placed `BOTTOM` iff the include-env flag parses true (default false) and `IGNORED` otherwise (`TenantPlacement`), holding the tenant's logger |
| MultiTenant.IsEnabled | scitrera_app_framework/ext_plugins/muti_tenant.py:112-114 | Truthy iff the first tier holding `SAF_MULTITENANT_ENABLED` gives a value that parses true |
| MultiTenant.ParsedFlag | scitrera_app_framework/ext_plugins/muti_tenant.py:58-62 | A key read with `ext_parse_bool` is truthy iff the first value found parses true; the environment decides when present, else the registered default |
| MultiTenant.FirstUnbound | scitrera_app_framework/ext_plugins/muti_tenant.py:6 | `None` iff every name is bound; otherwise the first unbound name |
| MultiTenant.ImportAsWritten | scitrera_app_framework/ext_plugins/muti_tenant.py:6 | The import fails on `EnvPlacement` |
| MultiTenant.TenantStoreCallAsWritten | scitrera_app_framework/ext_plugins/muti_tenant.py:66-70 | The exported store rejects `env_placement`; the full store accepts every keyword passed |
| Deploy.UpdateEntryFields | scitrera_app_framework/slaunch/deploy.py:15-29 | About `UpdateEntry`: `latest` is the new version or the copied one; other fields survive only a copy; `current` is kept, promoted or adopted; `KeyError` exactly when promoting or adopting a missing `latest` |
| Deploy.UpdateManifest | scitrera_app_framework/slaunch/deploy.py:14-31 | Only the entry for the name changes, and the transform succeeds iff the entry update does |
| Deploy.DeployKeepsCurrent | scitrera_app_framework/slaunch/deploy.py:19-20 | Without promotion a released `current` stays |
| Deploy.DeployPromotes | scitrera_app_framework/slaunch/deploy.py:23-24 | With promotion the version becomes `latest` and `current` |
| Deploy.FirstDeploy | scitrera_app_framework/slaunch/deploy.py:15-29 | A first deploy fails without promotion and sets no `current` with it |
| Deploy.UpdateEntryIdempotent | scitrera_app_framework/slaunch/deploy.py:15-29 | Recording a deployment twice equals recording it once |
| Deploy.UpdateManifestFilesAsWritten | scitrera_app_framework/slaunch/deploy.py:9-36 | The manifest is read from the libraries file when `libs`, but always written to the root file |
| Deploy.LibraryDeployLosesApps | scitrera_app_framework/slaunch/deploy.py:11-34 | As written, a library deployment drops apps the libraries manifest does not list |
| Deploy.UpdateManifestFiles | scitrera_app_framework/slaunch/deploy.py:9-36 | As intended, the updated manifest goes back to the file it came from, the other file untouched |
| Launcher.ScanArgs | scitrera_app_framework/slaunch/main.py:408-431 | The loop returns `Scan(args)` |
| Launcher.ScanConcat | scitrera_app_framework/slaunch/main.py:408-431 | About `Scan`: the scan of a concatenation composes the scans of the parts |
| Launcher.ScanPlain | scitrera_app_framework/slaunch/main.py:429-431 | Unknown arguments pass through in order and nothing is set |
| Launcher.ScanProcessed | scitrera_app_framework/slaunch/main.py:416-431 | No launcher flag is passed on, and every passed-on argument was given |
| Launcher.LastVersionWins | scitrera_app_framework/slaunch/main.py:416-419 | The last `--app-version` value wins, stripped |
| Launcher.ResetAnywhere | scitrera_app_framework/slaunch/main.py:427-428 | `--slaunch-full-reset` anywhere sets `reset` |
| Launcher.ThenAssociative | scitrera_app_framework/slaunch/main.py:408-431 | Sequencing scan effects is associative |
| Launcher.ThenNoEffect | scitrera_app_framework/slaunch/main.py:408-431 | The empty effect is neutral |
| Launcher.LastIndexOfChar | scitrera_app_framework/slaunch/main.py:434 | The index of the last occurrence, or -1 |
| Launcher.PathNameOfFile | scitrera_app_framework/slaunch/main.py:434 | About `PathName`: a path ending in a plain file name names that file |
| Launcher.StemOfSuffixed | scitrera_app_framework/slaunch/main.py:434 | About `Stem`: the stem of `base.ext` is `base` |
| Launcher.StemWithoutDot | scitrera_app_framework/slaunch/main.py:434 | A dot-free name is its own stem |
| Launcher.SelectApp | scitrera_app_framework/slaunch/main.py:433-441 | Succeeds iff the stem is listed or a second argument exists; the app is the stem with the rest as arguments, else the second argument with those after it |
| Launcher.LinkNamesApp | scitrera_app_framework/slaunch/main.py:434-435 | A launcher invoked through a link named after an app runs it with all remaining arguments |
| Launcher.LaunchName | scitrera_app_framework/slaunch/main.py:270-280 | The lower-cased name, which must be non-empty and listed |
| Launcher.LaunchPlanRules | scitrera_app_framework/slaunch/main.py:270-293 | About `LaunchPlan` and `DefaultVersion`: an explicit version is kept, else `current` falling back to `latest`; a reset forces both updates |
| Launcher.CurrentWithoutLatest | scitrera_app_framework/slaunch/main.py:285 | A `current` without `latest` cannot launch without an explicit version |
| Launcher.DefaultLibraries | scitrera_app_framework/slaunch/main.py:338-340 | Every library at its current-or-latest version, in order |
| Launcher.LibraryVersionsRules | scitrera_app_framework/slaunch/main.py:345-352 | About `LibraryVersions`: same libraries in order; a truthy version kept, a falsy one replaced by current-or-latest; failure iff some falsy-version library is unlisted |
| Launcher.DefaultLibrariesResolve | scitrera_app_framework/slaunch/main.py:338-352 | The default list resolves to itself |
| Launcher.LibraryVersionsPrefixErr | scitrera_app_framework/slaunch/main.py:345-352 | A failing prefix makes the whole resolution fail the same way |
| Launcher.ResolveLibraries | scitrera_app_framework/slaunch/main.py:344-352 | The loop returns `LibraryVersions` |
| Launcher.ResetScan | scitrera_app_framework/slaunch/main.py:408-431 | `<self> --slaunch-full-reset <app>` scans to reset with `[self, app]` passed on |
| Launcher.ResetLaunch | scitrera_app_framework/slaunch/main.py:386-445 | About `MainPlan`: `<self> --slaunch-full-reset <app>` resets and updates that app at its default version with no app arguments |

## Left out

- I/O and process plumbing in `core/core.py` are not modelled, as they are side effects with nothing to state: logging setup, signal and `atexit` installation, the fault handler, `os.kill` and module-version logging.
- Framework.InitStatefulRoot: `makedirs` and `chdir` are left out. `os.path.exists` is a parameter, and the `SAF_STATEFUL_CHDIR` read yields the `chdir` flag that would decide the directory change.
- `get_working_path` with `v=None`: the default store is not substituted; callers pass a store.
- Framework.LoadStrategy: it uses the corrected environment import, while `load_strategy` calls the as-written one; `Framework.LoadStrategyAsWritten` is the call as written. In both, resolution is over a given module table (`importlib` is foreign code), and logging of the failure is left out.
- The rest of `init_framework` is not modelled: pyroscope, logger and formatter setup, and the other `environ` calls.
- `util/imports.py`: `import_modules`, `path_for_module` and the real `importlib`/`getattr` calls are replaced by a module table. `find_types_in_modules` is a method returning the yielded list, not a generator.
- `k8s/util.py`: `pod_exists`, `is_pod_running`, `is_pod_in_terminated_state` and `start_pod` call the Kubernetes API and sleep, so they are left out.
- VariablesV1.Variables.constructor: `local_provider` is modelled by the dict it returns (`initialLocal`), which the store then owns. A provider object whose later changes or pass-through writes are seen elsewhere is not modelled.
- VariablesV1.Variables.AddSource: dict and nested-store sources are held as values, whereas Python holds them by reference. A change the caller makes to such a dict or store after adding it is not seen by later reads; the same holds for the sources given to the constructor.
- K8s.MetadataName: a dict whose `metadata` entry is present but `None` (or not a dict) raises `AttributeError` in the source; the model has no such value and reads it as missing metadata, `None`. The same holds for `K8s.MetadataNamespace`.
- K8s.GetPodEnv: a container whose `env` entry is present but `None` makes the source return `None`; the model has no such value, creates an empty list and returns it.
- K8s.GetPodEnv: the pod dictionary is collapsed to its container list, empty when the pod, its `spec` or its `containers` is missing. Container entries always carry a name field, so the `KeyError` a nameless container raises while the name map is built is not modelled.
- K8s.MergeEnvVars: aliasing between the given list and the argument entries is not modelled. `update` on an entry dict shared with the caller is modelled as producing a merged copy.
- MultiTenant.Provider.Get: the logger is modelled as an object named by the tenant id, and `_local_provider(tenant_id)` as the function `tenantLocal` giving the dict it returns. The logging level read at line 80 registers the key `LOGGING_LEVEL` with no default. `ENV_LOGGING_LEVEL` is not defined in `core/core.py`, so the name used there is the literal `core.py` reads with.
- `slaunch/constants.py` is not part of this model. `VERSION_LATEST` and `VERSION_CURRENT` are taken as `latest` and `current`, the literals `main.py` reads the same fields with; `LIBS` and the manifest file name are abstracted into two fields of `Deploy.Repository`.
- `slaunch`: subprocess, conda and pip, file copying, YAML reading and writing, `sys.exit`, and the import-path strings are I/O and are left out. `deploy_app`/`deploy_lib` are their file copy plus a `Deploy.UpdateManifestFiles` call.
- Launcher.SelectApp: paths are parsed as POSIX paths; Windows separators and drive letters are not modelled.
- Text.Lower and Text.Upper map ASCII letters only, while Python's `str.lower()`/`str.upper()` follow Unicode. Names with non-ASCII letters can therefore differ from the source: the app names of `Launcher.LaunchName` and `Launcher.SelectApp` (`slaunch/main.py:272,434`), the store's `__contains__` (`VariablesV2.ContainsIgnoresCase`), the plugin-name lookup behind `PluginRegistry.MixedCaseNameRegisteredTwice`, and environment names. `Framework.Sensitive` and `Parsing.ParseBool` can differ on such input as well, though the words they test are ASCII.
- Launcher.DefaultLibraries: the libraries manifest is given as an item list in dict order, since `map` has no order.
- Launcher.LibraryVersions: a library with a falsy version whose entry has neither `current` nor `latest` resolves to `None`. The source's next step, `check_update_lib` (`slaunch/main.py:234`), then raises `TypeError` on the path `lib_name / None`; that step is file-system work and is not modelled.
- Launcher.MainPlan: `main()` called with no arguments falls back to `sys.argv` (`slaunch/main.py:387-388`); the model takes the arguments as given.
- Deploy.ReadManifest: only a missing file is read as `{}`. An empty YAML file makes `read_yaml` return `None`, and `name in manifest` then raises `TypeError` (`slaunch/deploy.py:14-15`); the model has no empty-file case.
- `Variables.import_from_env_by_prefix` (`api/variables.py:166-200`) and `Variables2.import_from_dict_by_prefix` (`api/variables2.py:97-112`) are not modelled; the model covers the store's other prefix operations.
- Source order of `_extension_options`: the Python set's iteration order is left open. `FindPluginForExt` promises some enabled option, not a particular one.
- `get_extension(PluginType)`: registration goes through the default store. Only the name form is modelled; the class form is covered by `RegisterPlugin` with `init` followed by `GetExtension`.
- Async helpers, threads and background executors are concurrency and are left out. So are the plugins in `base_plugins/` and `ext_plugins/pyroscope_plugin.py`, `core/util.py` (dotenv) and the package `__init__` orchestration.
- PluginApi.ExtensionPoint, PluginApi.IsEnabled and PluginApi.Dependencies: in the source these hooks take the store `v` and are called again at each use (`core/plugins.py:33,49,55,69,111,126,128,144`). The model fixes each class's answers as fields, so every call answers alike and leaves the store untouched. An override that reads the store, or changes it, is not modelled: for example `MultiTenantPlugin.is_enabled` (`MultiTenant.IsEnabled`) calls `v.environ`, which records a key and a coercion each time. The registry invariants that a plugin serves its committed point and that every enabled plugin is collected rely on these fixed answers.
- Plugin `initialize`/`shutdown` bodies and coercion functions are opaque: a plugin carries the value its `initialize` returns and whether its `shutdown` raises.

## Findings

| source | as written | input that shows it | evidently intended | confidence | as-written member | corrected member |
|---|---|---|---|---|---|---|
| scitrera_app_framework/api/variables2.py:74 | The coercion is looked up under the matched value, not the key | `environ('SAF_INSTALL_SHUTDOWN_HOOKS', type_fn=ext_parse_bool)` with the environment holding `false` reads as the truthy string `'false'` | Look the coercion up under the key, as `api/variables.py:156-158` does | not executed | VariablesV2.ReadAsWritten, VariablesV2.CoercionByValueCounterexample | VariablesV2.Read2 |
| scitrera_app_framework/core/plugins.py:125 | `name not in pr` goes through `Variables2.__contains__`, which lower-cases the name, so a registered mixed-case name is never found | Registering a class named `pkg.Widget` twice stores both instances as options of its point | Test the stored names verbatim | not executed | PluginRegistry.MixedCaseNameRegisteredTwice | PluginRegistry.Registry.RegisterPlugin |
| scitrera_app_framework/core/plugins.py:154-155 | A lazily committed plugin is handed back to `_init_plugin`, which returns the stored entry because the plugin is already collected, so `initialize` never runs | A non-eager plugin registered with `init=True`, then `get_extension` on its point, returns `None` | Initialise the collected plugin now and return its value | not executed | PluginRegistry.Registry.GetExtensionAsWritten, PluginRegistry.LazyExtensionScenario | PluginRegistry.Registry.GetExtension |
| scitrera_app_framework/api/variables2.py:84-95 | Matching names are recorded upper-case from the environment, but `get_by_prefix` lowers the prefix, so nothing is found | `MY_STRATEGY_TYPE` in the environment and prefix `MY_STRATEGY`: the result is `{}` and `load_strategy` gets no type | Match with the prefix as given and return lower-cased names | not executed | VariablesV2.Variables2.ImportFromEnvByPrefixAsWritten, VariablesV2.PrefixCaseCounterexample | VariablesV2.Variables2.ImportFromEnvByPrefix |
| scitrera_app_framework/ext_plugins/muti_tenant.py:6 | The module imports `EnvPlacement` from the package, which does not export it, and builds tenant stores with keywords the exported `Variables2` rejects | Importing the module raises `ImportError` on `EnvPlacement`; past that, `Variables2(env_placement=...)` raises `TypeError` | Build tenant stores with the full store of `api/variables.py` | not executed | MultiTenant.ImportAsWritten, MultiTenant.TenantStoreCallAsWritten | MultiTenant.Provider.Get |
| scitrera_app_framework/slaunch/deploy.py:33-34 | The manifest is read from the libraries directory for `libs=True` but always written to the root manifest | `deploy_lib` of a library on a repository whose apps manifest lists an app the libraries manifest lacks: the app is gone from the apps manifest | Write back to the manifest path that was read | not executed | Deploy.UpdateManifestFilesAsWritten, Deploy.LibraryDeployLosesApps | Deploy.UpdateManifestFiles |
