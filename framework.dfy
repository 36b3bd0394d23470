/**
 * `core/core.py`: the framework's module-level state (the default
 * configuration store and the shutdown hooks), the stateful-root and
 * working-path conventions, strategy loading, the application name that
 * `init_framework` derives from its parameters, and the redaction applied
 * when the configuration is logged.
 */
module Framework {
  import opened Base
  import opened Text
  import opened PyValues
  import opened VariablesV1
  import opened VariablesV2
  import Parsing
  import Imports

  /** The internal keys of the stateful root and of its ready flag. */
  const AppStatefulRoot: string := "=|app_state_root|"
  const AppStatefulReady: string := "=|app_state_ready|"

  // ---------------------------------------------------------------- paths

  /** `os.path.join(a, *parts)` on POSIX: an absolute part restarts the path; a slash is added unless the path is empty or already ends with one. */
  function PathJoin(a: string, parts: seq<string>): string
    decreases |parts|
  {
    if parts == [] then a
    else
      var b := parts[0];
      var next := if StartsWith(b, "/") then b else if a == "" || EndsWith(a, "/") then a + b else a + "/" + b;
      PathJoin(next, parts[1..])
  }

  /** Joining slash-free, non-empty parts onto a path that does not end with a slash puts exactly one slash between neighbours. */
  lemma {:induction false} PathJoinPlain(a: string, parts: seq<string>)
    requires a != "" && !EndsWith(a, "/")
    requires forall i :: 0 <= i < |parts| ==> parts[i] != "" && '/' !in parts[i]
    ensures PathJoin(a, parts) == Join([a] + parts, "/")
    decreases |parts|
  {
    if parts != [] {
      var b := parts[0];
      assert !StartsWith(b, "/") by { assert b[0] != '/'; }
      var next := a + "/" + b;
      assert !EndsWith(next, "/") by { assert next[|next| - 1] == b[|b| - 1]; }
      PathJoinPlain(next, parts[1..]);
      assert ([next] + parts[1..])[1..] == parts[1..];
      assert ([a] + parts)[1..] == parts;
      if |parts| == 1 {
        assert Join([next], "/") == next;
        assert Join(parts, "/") == b;
      } else {
        assert Join([next] + parts[1..], "/") == next + "/" + Join(parts[1..], "/");
        assert Join(parts, "/") == b + "/" + Join(parts[1..], "/");
      }
    }
  }

  /** An absolute part discards everything joined before it. */
  lemma {:induction false} PathJoinAbsoluteRestarts(a: string, before: seq<string>, b: string, after: seq<string>)
    requires StartsWith(b, "/")
    ensures PathJoin(a, before + [b] + after) == PathJoin(b, after)
    decreases |before|
  {
    if before == [] {
      assert before + [b] + after == [b] + after;
      assert ([b] + after)[1..] == after;
    } else {
      var c := before[0];
      var next := if StartsWith(c, "/") then c else if a == "" || EndsWith(a, "/") then a + c else a + "/" + c;
      assert (before + [b] + after)[1..] == before[1..] + [b] + after;
      PathJoinAbsoluteRestarts(next, before[1..], b, after);
    }
  }

  /** `filter(None, components)`: the truthy components, in order. */
  function TruthyOnly(components: seq<Value>): (r: seq<Value>)
    ensures |r| <= |components|
  {
    if components == [] then []
    else (if Truthy(components[0]) then [components[0]] else []) + TruthyOnly(components[1..])
  }

  /** `filter(None, ...)` keeps exactly the truthy components. */
  lemma {:induction false} TruthyOnlyMembers(components: seq<Value>, x: Value)
    ensures x in TruthyOnly(components) <==> x in components && Truthy(x)
  {
    if components != [] {
      TruthyOnlyMembers(components[1..], x);
      assert x in components <==> x == components[0] || x in components[1..];
    }
  }

  /** Whether every value is a string. */
  predicate AllTexts(vals: seq<Value>) {
    forall i :: 0 <= i < |vals| ==> vals[i].Str?
  }

  /** The strings of a list of string values. */
  function Texts(vals: seq<Value>): (r: seq<string>)
    requires AllTexts(vals)
    ensures |r| == |vals|
    ensures forall i :: 0 <= i < |vals| ==> r[i] == vals[i].s
  {
    if vals == [] then [] else [vals[0].s] + Texts(vals[1..])
  }

  /**
   * The path of line 202: the state root joined with the truthy ones among
   * the run id, the run serial and the local name. A root or a kept
   * component that is not a string makes `os.path.join` raise `TypeError`.
   */
  function StatefulPath(root: Value, components: seq<Value>): Result<string, string> {
    var kept := TruthyOnly(components);
    if !root.Str? || !AllTexts(kept) then Err("TypeError: join() argument must be str")
    else Ok(PathJoin(root.s, Texts(kept)))
  }

  /** The join raises exactly when the root or a kept component is not a string. */
  lemma StatefulPathFails(root: Value, components: seq<Value>)
    ensures StatefulPath(root, components).Err? <==> !root.Str? || exists x :: x in components && Truthy(x) && !x.Str?
  {
    var kept := TruthyOnly(components);
    if !AllTexts(kept) {
      var i :| 0 <= i < |kept| && !kept[i].Str?;
      TruthyOnlyMembers(components, kept[i]);
    }
    if exists x :: x in components && Truthy(x) && !x.Str? {
      var x :| x in components && Truthy(x) && !x.Str?;
      TruthyOnlyMembers(components, x);
    }
  }

  /** A `None`, empty or otherwise falsy component leaves the path as if it were absent. */
  lemma StatefulPathSkipsFalsy(root: Value, before: seq<Value>, x: Value, after: seq<Value>)
    requires !Truthy(x)
    ensures StatefulPath(root, before + [x] + after) == StatefulPath(root, before + after)
  {
    assert before + [x] + after == before + ([x] + after);
    TruthyOnlyConcat(before, [x] + after);
    assert ([x] + after)[1..] == after;
    assert TruthyOnly([x] + after) == TruthyOnly(after);
    TruthyOnlyConcat(before, after);
    assert TruthyOnly(before + [x] + after) == TruthyOnly(before + after);
  }

  lemma {:induction false} TruthyOnlyConcat(a: seq<Value>, b: seq<Value>)
    ensures TruthyOnly(a + b) == TruthyOnly(a) + TruthyOnly(b)
  {
    if a != [] {
      assert (a + b)[1..] == a[1..] + b;
      TruthyOnlyConcat(a[1..], b);
    } else {
      assert a + b == b;
    }
  }

  /** With every component a slash-free non-empty string, the path is the root and the components joined by single slashes. */
  lemma StatefulPathPlain(root: string, components: seq<string>)
    requires root != "" && !EndsWith(root, "/")
    requires forall i :: 0 <= i < |components| ==> components[i] != "" && '/' !in components[i]
    ensures StatefulPath(Str(root), StrsOf(components)) == Ok(Join([root] + components, "/"))
  {
    var vals := StrsOf(components);
    TruthyOnlyKeepsTruthy(vals);
    assert Texts(vals) == components;
    PathJoinPlain(root, components);
  }

  /** String values for strings. */
  function StrsOf(xs: seq<string>): (r: seq<Value>)
    ensures |r| == |xs|
    ensures forall i :: 0 <= i < |xs| ==> r[i] == Str(xs[i])
  {
    if xs == [] then [] else [Str(xs[0])] + StrsOf(xs[1..])
  }

  lemma {:induction false} TruthyOnlyKeepsTruthy(vals: seq<Value>)
    requires forall i :: 0 <= i < |vals| ==> Truthy(vals[i])
    ensures TruthyOnly(vals) == vals
  {
    if vals != [] {
      TruthyOnlyKeepsTruthy(vals[1..]);
    }
  }

  /** `./scratch`, the root `tests/test_core.py` uses, is a plain path. */
  lemma ScratchIsPlain()
    ensures "./scratch" != "" && !EndsWith("./scratch", "/")
  {
    assert "./scratch"[|"./scratch"| - 1] == 'h';
  }

  /** The run id and application name of the examples are slash-free path components. */
  lemma ExampleComponentsPlain()
    ensures '/' !in "r1" && '/' !in "test-app"
  {
  }

  /** With a run id, it sits between the root and the name. */
  lemma StatefulPathWithRunId()
    ensures StatefulPath(Str("./scratch"), [Str("r1"), Null, Str("test-app")]) == Ok("./scratch" + "/" + ("r1" + "/" + "test-app"))
  {
    var root := Str("./scratch");
    StatefulPathSkipsFalsy(root, [Str("r1")], Null, [Str("test-app")]);
    assert [Str("r1")] + [Null] + [Str("test-app")] == [Str("r1"), Null, Str("test-app")];
    var parts: seq<string> := ["r1", "test-app"];
    assert StrsOf(parts) == [Str("r1")] + [Str("test-app")];
    ScratchIsPlain();
    ExampleComponentsPlain();
    StatefulPathPlain("./scratch", parts);
    var all := ["./scratch"] + parts;
    assert all[1..] == parts && parts[1..] == ["test-app"];
    assert Join(all, "/") == "./scratch" + "/" + ("r1" + "/" + "test-app");
  }

  /** Without a run id or serial, the path is the root and the application name. */
  lemma StatefulPathWithoutRun()
    ensures StatefulPath(Str("./scratch"), [Null, Str(""), Str("test-app")]) == Ok("./scratch" + "/" + "test-app")
  {
    var root := Str("./scratch");
    StatefulPathSkipsFalsy(root, [], Null, [Str(""), Str("test-app")]);
    assert [] + [Null] + [Str(""), Str("test-app")] == [Null, Str(""), Str("test-app")];
    assert [] + [Str(""), Str("test-app")] == [Str(""), Str("test-app")];
    StatefulPathSkipsFalsy(root, [], Str(""), [Str("test-app")]);
    assert [] + [Str("")] + [Str("test-app")] == [Str(""), Str("test-app")];
    assert [] + [Str("test-app")] == [Str("test-app")];
    var parts: seq<string> := ["test-app"];
    assert StrsOf(parts) == [Str("test-app")];
    ScratchIsPlain();
    ExampleComponentsPlain();
    StatefulPathPlain("./scratch", parts);
    var all := ["./scratch"] + parts;
    assert all[1..] == parts;
    assert Join(all, "/") == "./scratch" + "/" + "test-app";
  }

  /** A serial that is an integer (a time in milliseconds, say) is not a path component: the join raises. */
  lemma StatefulPathRejectsNumbers()
    ensures StatefulPath(Str("./scratch"), [Null, Int(1700000000000), Str("test-app")]).Err?
  {
    StatefulPathFails(Str("./scratch"), [Null, Int(1700000000000), Str("test-app")]);
    assert Int(1700000000000) in [Null, Int(1700000000000), Str("test-app")];
  }

  // ------------------------------------------------------------ redaction

  /** The test of line 381: a key naming a password or a secret, in any case. */
  predicate Sensitive(k: string) {
    ContainsSub(Lower(k), "password") || ContainsSub(Lower(k), "secret")
  }

  /** The dictionary `log_framework_variables` logs: every variable, sensitive ones replaced by a marker. */
  function Redacted(vars: map<string, Value>): (r: map<string, Value>)
    ensures r.Keys == vars.Keys
  {
    map k | k in vars :: if Sensitive(k) then Str("(redacted)") else vars[k]
  }

  /** Redaction hides exactly the sensitive keys' values and keeps every other value. */
  lemma RedactedHidesExactlySensitive(vars: map<string, Value>, k: string)
    requires k in vars
    ensures Sensitive(k) ==> Redacted(vars)[k] == Str("(redacted)")
    ensures !Sensitive(k) ==> Redacted(vars)[k] == vars[k]
    ensures Redacted(Redacted(vars)) == Redacted(vars)
  {
  }

  /** Sensitivity ignores case. */
  lemma SensitiveIgnoresCase(k: string)
    ensures Sensitive(k) == Sensitive(Upper(k)) == Sensitive(Lower(k))
  {
    LowerOfUpper(k);
    LowerIdempotent(k);
  }

  lemma SensitiveExamples()
    ensures Sensitive("DB_PASSWORD") && Sensitive("api_Secret_token") && !Sensitive("USER") && !Sensitive("PASSWD")
  {
    assert Lower("DB_PASSWORD")[3..][..8] == "password";
    assert Lower("api_Secret_token")[4..][..6] == "secret";
    assert Lower("USER") == "user";
    assert Lower("PASSWD") == "passwd";
    assert !StartsWith("passwd", "secret") by { assert "passwd"[0] != "secret"[0]; }
  }

  // ------------------------------------------------------------- app name

  /** The string values of the parameters not listed in `unnamed`, in parameter order. */
  function NamedValues(params: seq<(string, Value)>, unnamed: seq<string>): (r: seq<string>)
    ensures |r| <= |params|
    ensures (forall i :: 0 <= i < |params| ==> params[i].0 in unnamed) <==> r == []
  {
    if params == [] then []
    else (if params[0].0 !in unnamed then [PyStr(params[0].1)] else []) + NamedValues(params[1..], unnamed)
  }

  /** Lines 306-309: the base name, followed by the named parameters' values when there are any. */
  function AppName(base: string, params: seq<(string, Value)>, unnamed: seq<string>, sep: string): (r: string)
    ensures NamedValues(params, unnamed) == [] ==> r == base
    ensures NamedValues(params, unnamed) != [] ==> r == Join([base] + NamedValues(params, unnamed), sep)
  {
    var vals := NamedValues(params, unnamed);
    if vals != [] then
      assert ([base] + vals)[1..] == vals;
      base + sep + Join(vals, sep)
    else base
  }

  /** With a one-character separator that neither the base nor any value contains, the name splits back into the base and the named values. */
  lemma AppNameSplits(base: string, params: seq<(string, Value)>, unnamed: seq<string>, c: char)
    requires c !in base
    requires forall i :: 0 <= i < |NamedValues(params, unnamed)| ==> c !in NamedValues(params, unnamed)[i]
    ensures Split(AppName(base, params, unnamed, [c]), c) == [base] + NamedValues(params, unnamed)
  {
    var vals := NamedValues(params, unnamed);
    if vals == [] {
      SplitWithoutSeparator(base, c);
    } else {
      SplitJoin([base] + vals, c);
    }
  }

  /** `str(1)`. */
  lemma PyStrOne()
    ensures PyStr(Int(1)) == "1"
  {
    assert NatToDecimal(1) == "1";
  }

  /** The examples of `tests/test_core.py`: `worker_id=1, region="us-east"` gives `test-app-1-us-east`. */
  lemma AppNameWithRegion()
    ensures AppName("test-app", [("worker_id", Int(1)), ("region", Str("us-east"))], [], "-") == "test-app-1-us-east"
  {
    var ps := [("worker_id", Int(1)), ("region", Str("us-east"))];
    PyStrOne();
    assert ps[1..] == [("region", Str("us-east"))] && ps[1..][1..] == [];
    assert NamedValues(ps[1..], []) == ["us-east"] + [];
    assert NamedValues(ps, []) == ["1"] + ["us-east"];
    var vals := ["1", "us-east"];
    assert vals[1..] == ["us-east"];
    assert AppName("test-app", ps, [], "-") == "test-app" + "-" + ("1" + "-" + "us-east");
  }

  /** With `region` unnamed, only the worker id is appended. */
  lemma AppNameRegionUnnamed()
    ensures AppName("test-app", [("worker_id", Int(1)), ("region", Str("us-east"))], ["region"], "-") == "test-app-1"
  {
    var ps := [("worker_id", Int(1)), ("region", Str("us-east"))];
    PyStrOne();
    assert "region" in ["region"] && "worker_id" !in ["region"] by {
      assert "worker_id"[0] != "region"[0];
    }
    assert ps[1..] == [("region", Str("us-east"))] && ps[1..][1..] == [];
    assert NamedValues(ps[1..], ["region"]) == [] + [];
    assert NamedValues(ps, ["region"]) == ["1"] + [];
    assert AppName("test-app", ps, ["region"], "-") == "test-app" + "-" + "1";
  }

  /** Another separator: `sep="_"` gives `test-app_1`. */
  lemma AppNameUnderscore()
    ensures AppName("test-app", [("worker_id", Int(1))], [], "_") == "test-app_1"
  {
    var ps := [("worker_id", Int(1))];
    PyStrOne();
    assert ps[1..] == [];
    assert NamedValues(ps, []) == ["1"] + [];
    assert AppName("test-app", ps, [], "_") == "test-app" + "_" + "1";
  }

  /** Without parameters the name is the base name. */
  lemma AppNameWithoutParams()
    ensures AppName("test-app", [], [], "-") == "test-app"
  {
  }

  // -------------------------------------------------------- shutdown hooks

  /** How a shutdown hook's call ends: normally, with an `Exception`, or with a `BaseException` that is not one (such as `SystemExit`). */
  datatype HookOutcome = Returns | RaisesException | RaisesBaseException

  /** A registered `(fn, args, kwargs)`; the call itself is given by its outcome. */
  datatype Hook = Hook(name: string, args: seq<Value>, kwargs: map<string, Value>, outcome: HookOutcome)

  /** Whether some hook raises past `except Exception`. */
  predicate Escapes(hooks: seq<Hook>) {
    exists i :: 0 <= i < |hooks| && hooks[i].outcome == RaisesBaseException
  }

  /** The hooks a run calls over `pending`: all of them in order, up to and including the first whose exception escapes. */
  function CallsUntilEscape(pending: seq<Hook>): (r: seq<Hook>)
    ensures |r| <= |pending| && r == pending[..|r|]
    ensures forall i :: 0 <= i < |r| - 1 ==> r[i].outcome != RaisesBaseException
    ensures !Escapes(pending) ==> r == pending
    ensures Escapes(pending) <==> (r != [] && r[|r| - 1].outcome == RaisesBaseException)
  {
    if pending == [] then []
    else if pending[0].outcome == RaisesBaseException then [pending[0]]
    else
      var rest := CallsUntilEscape(pending[1..]);
      assert Escapes(pending) <==> Escapes(pending[1..]) by {
        if Escapes(pending) {
          var i :| 0 <= i < |pending| && pending[i].outcome == RaisesBaseException;
          assert pending[1..][i - 1] == pending[i];
        }
        if Escapes(pending[1..]) {
          var i :| 0 <= i < |pending[1..]| && pending[1..][i].outcome == RaisesBaseException;
          assert pending[i + 1] == pending[1..][i];
        }
      }
      assert pending[..|rest| + 1] == [pending[0]] + pending[1..][..|rest|];
      assert forall i :: 1 <= i < |rest| + 1 ==> ([pending[0]] + rest)[i] == rest[i - 1];
      [pending[0]] + rest
  }

  /** The hooks whose `Exception` is caught and logged as a warning, in call order. */
  function Warnings(called: seq<Hook>): (r: seq<Hook>)
    ensures forall h :: h in r <==> h in called && h.outcome == RaisesException
  {
    if called == [] then []
    else
      assert forall h :: h in called <==> h == called[0] || h in called[1..];
      (if called[0].outcome == RaisesException then [called[0]] else []) + Warnings(called[1..])
  }

  /** Reversal keeps the set of escaping hooks: a run escapes exactly when some registered hook does. */
  lemma EscapesReversed(hooks: seq<Hook>)
    ensures Escapes(Reverse(hooks)) <==> Escapes(hooks)
  {
    var r := Reverse(hooks);
    if Escapes(hooks) {
      var i :| 0 <= i < |hooks| && hooks[i].outcome == RaisesBaseException;
      assert r[|hooks| - 1 - i] == hooks[i];
    }
    if Escapes(r) {
      var i :| 0 <= i < |r| && r[i].outcome == RaisesBaseException;
      assert r[i] == hooks[|hooks| - 1 - i];
    }
  }

  /** The hook registered last is the first one a run calls. */
  lemma LastRegisteredRunsFirst(hooks: seq<Hook>, h: Hook)
    ensures CallsUntilEscape(Reverse(hooks + [h]))[0] == h
  {
    var r := Reverse(hooks + [h]);
    assert r[0] == (hooks + [h])[|hooks|];
  }

  // ------------------------------------------------- reading a configured key

  /** Two states that agree on one key's environment, local and default entries read it alike. */
  lemma {:induction false} ScanAgrees(srcs: seq<Source>, t: Tables, u: Tables, key: string)
    requires u.env == t.env
    requires (key in u.local <==> key in t.local) && (key in t.local ==> u.local[key] == t.local[key])
    requires (key in u.defaults <==> key in t.defaults) && (key in t.defaults ==> u.defaults[key] == t.defaults[key])
    ensures Scan(srcs, u, key) == Scan(srcs, t, key)
  {
    if srcs != [] {
      assert Probe(srcs[0], u, key) == Probe(srcs[0], t, key);
      ScanAgrees(srcs[1..], t, u, key);
    }
  }

  /** The same for a full read. */
  lemma ReadAgrees(srcs: seq<Source>, t: Tables, u: Tables, typeFns: map<string, Option<Value -> Value>>, key: string)
    requires u.env == t.env
    requires (key in u.local <==> key in t.local) && (key in t.local ==> u.local[key] == t.local[key])
    requires (key in u.defaults <==> key in t.defaults) && (key in t.defaults ==> u.defaults[key] == t.defaults[key])
    ensures Read2(srcs, u, typeFns, key, false) == Read2(srcs, t, typeFns, key, false)
  {
    ScanAgrees(srcs, t, u, key);
  }

  /**
   * What `v.environ(key, default=d)` returns (lines 257 and 310): an
   * environment variable wins, then a value set locally; otherwise, when no
   * constructor source holds the key, the default just registered.
   */
  lemma EnvironResolution(given: seq<AddedSource>, appended: seq<AddedSource>, t: Tables,
                          typeFns: map<string, Option<Value -> Value>>, key: string, d: Value)
    requires key !in typeFns || typeFns[key].None?
    ensures var u := if d != Null then t.(defaults := t.defaults[key := d]) else t;
      var r := Read2(Layout2(given, appended), u, typeFns, key, false);
      && (Upper(key) in t.env ==> r == Str(t.env[Upper(key)]))
      && (Upper(key) !in t.env && key in t.local ==> r == t.local[key])
      && ((Upper(key) !in t.env && key !in t.local && d != Null
           && (forall i :: 0 <= i < |given| ==> Probe(Added(given[i]), t, key).None?)) ==> r == d)
  {
    var u := if d != Null then t.(defaults := t.defaults[key := d]) else t;
    EnvThenLocal(given, appended, u, key);
    if Upper(key) !in t.env && key !in t.local && d != Null
       && (forall i :: 0 <= i < |given| ==> Probe(Added(given[i]), t, key).None?) {
      assert forall i :: 0 <= i < |given| ==> Probe(Added(given[i]), u, key) == Probe(Added(given[i]), t, key);
      DefaultsOutrankAdded(given, appended, u, key);
    }
  }

  // ------------------------------------------------------- stateful root

  /** `is_stateful_ready(v)` on a state: the root when the ready flag reads truthy, else `None`. */
  function ReadyRoot(srcs: seq<Source>, t: Tables, typeFns: map<string, Option<Value -> Value>>): Value {
    if Truthy(Read2(srcs, t, typeFns, AppStatefulReady, false)) then Read2(srcs, t, typeFns, AppStatefulRoot, false) else Null
  }

  /** Whether nothing but the local overlay can answer, or coerce, the internal stateful keys. */
  predicate InternalKeysPlain(env: map<string, string>, typeFns: map<string, Option<Value -> Value>>) {
    Upper(AppStatefulRoot) !in env && Upper(AppStatefulReady) !in env
    && (AppStatefulRoot !in typeFns || typeFns[AppStatefulRoot].None?)
    && (AppStatefulReady !in typeFns || typeFns[AppStatefulReady].None?)
  }

  /** Once the root and then the ready flag are set (lines 203 and 210), `is_stateful_ready` returns the root. */
  lemma ReadyAfterMarking(given: seq<AddedSource>, appended: seq<AddedSource>, t: Tables,
                          typeFns: map<string, Option<Value -> Value>>, root: Value)
    requires InternalKeysPlain(t.env, typeFns)
    ensures ReadyRoot(Layout2(given, appended), t.(local := t.local[AppStatefulRoot := root][AppStatefulReady := Bool(true)]), typeFns) == root
  {
    var u := t.(local := t.local[AppStatefulRoot := root][AppStatefulReady := Bool(true)]);
    assert AppStatefulRoot != AppStatefulReady by { assert AppStatefulRoot[13] != AppStatefulReady[13]; }
    EnvThenLocal(given, appended, u, AppStatefulReady);
    EnvThenLocal(given, appended, u, AppStatefulRoot);
  }

  /** Where no tier holds the ready flag, `is_stateful_ready` returns `None`. */
  lemma NotReadyWithoutFlag(given: seq<AddedSource>, appended: seq<AddedSource>, t: Tables,
                            typeFns: map<string, Option<Value -> Value>>)
    requires Upper(AppStatefulReady) !in t.env && AppStatefulReady !in t.local && AppStatefulReady !in t.defaults
    requires forall i :: 0 <= i < |given| ==> Probe(Added(given[i]), t, AppStatefulReady).None?
    requires forall i :: 0 <= i < |appended| ==> Probe(Added(appended[i]), t, AppStatefulReady).None?
    ensures ReadyRoot(Layout2(given, appended), t, typeFns) == Null
  {
    DefaultsOutrankAdded(given, appended, t, AppStatefulReady);
    ScanSilent(appended, t, AppStatefulReady);
  }

  /** `is_stateful_ready(v)`: two reads, no change. */
  method IsStatefulReady(v: Variables2) returns (r: Value)
    ensures r == ReadyRoot(v.sources, v.State(), v.typeFns)
  {
    var ready := v.Get(AppStatefulReady, false);
    if Truthy(ready) {
      r := v.Get(AppStatefulRoot, false);
    } else {
      r := Null;
    }
  }

  /** The defaults table after `environ(k, default=x)`: a `None` default is not registered. */
  function WithDefault(d: map<string, Value>, k: string, x: Value): map<string, Value> {
    if x != Null then d[k := x] else d
  }

  /**
   * Line 194: `STATEFUL_ROOT` read with `default_stateful_root` registered. An
   * uncoerced read takes the environment first and falls back to the default
   * when neither the overlay nor a given source holds the key.
   */
  method ReadStatefulRoot(v: Variables2, defaultRoot: string) returns (stateRoot: Value)
    requires v.Valid()
    modifies v
    ensures v.Valid()
    ensures v.local == old(v.local) && v.typeFns == old(v.typeFns)
    ensures v.sources == old(v.sources) && v.given == old(v.given) && v.appended == old(v.appended)
    ensures v.defaults == old(v.defaults)["STATEFUL_ROOT" := Str(defaultRoot)] && v.keys == old(v.keys) + {"STATEFUL_ROOT"}
    ensures stateRoot == v.Lookup("STATEFUL_ROOT", false)
    ensures ("STATEFUL_ROOT" !in v.typeFns || v.typeFns["STATEFUL_ROOT"].None?) ==>
      && (Upper("STATEFUL_ROOT") in v.env ==> stateRoot == Str(v.env[Upper("STATEFUL_ROOT")]))
      && ((Upper("STATEFUL_ROOT") !in v.env && "STATEFUL_ROOT" !in v.local
           && (forall i :: 0 <= i < |v.given| ==> Probe(Added(v.given[i]), old(v.State()), "STATEFUL_ROOT").None?))
          ==> stateRoot == Str(defaultRoot))
  {
    stateRoot := v.Environ("STATEFUL_ROOT", "", Str(defaultRoot), None);
    EnvThenLocal(v.given, v.appended, v.State(), "STATEFUL_ROOT");
    if Upper("STATEFUL_ROOT") !in v.env && "STATEFUL_ROOT" !in v.local
       && (forall i :: 0 <= i < |v.given| ==> Probe(Added(v.given[i]), old(v.State()), "STATEFUL_ROOT").None?) {
      assert forall i :: 0 <= i < |v.given| ==> Probe(Added(v.given[i]), v.State(), "STATEFUL_ROOT") == Probe(Added(v.given[i]), old(v.State()), "STATEFUL_ROOT");
      DefaultsOutrankAdded(v.given, v.appended, v.State(), "STATEFUL_ROOT");
    }
  }

  /** Lines 200-201: the run id and the run serial, each read with its default registered. */
  method ReadRunParts(v: Variables2, defaultRunId: Value, defaultRunSerial: Value) returns (runId: Value, runSerial: Value)
    modifies v
    ensures v.local == old(v.local) && v.typeFns == old(v.typeFns)
    ensures v.sources == old(v.sources) && v.given == old(v.given) && v.appended == old(v.appended)
    ensures var d2 := WithDefault(old(v.defaults), "RUN_ID", defaultRunId);
      && v.defaults == WithDefault(d2, "RUN_SERIAL", defaultRunSerial)
      && v.keys == old(v.keys) + {"RUN_ID", "RUN_SERIAL"}
      && runId == Read2(v.sources, Tables(v.env, v.local, d2), v.typeFns, "RUN_ID", false)
      && runSerial == Read2(v.sources, v.State(), v.typeFns, "RUN_SERIAL", false)
  {
    runId := v.Environ("RUN_ID", "", defaultRunId, None);
    runSerial := v.Environ("RUN_SERIAL", "", defaultRunSerial, None);
  }

  /**
   * Lines 203-210 after a successful join: the path is recorded, the
   * change-directory flag is read with `ext_parse_bool` and `default_chdir`
   * registered, and the ready flag is raised. The flag is true exactly when
   * the first source holding it gives a value that parses true.
   */
  method MarkStatefulRoot(v: Variables2, path: string, defaultChdir: bool) returns (chdir: bool)
    requires v.Valid()
    modifies v
    ensures v.Valid()
    ensures v.sources == old(v.sources) && v.given == old(v.given) && v.appended == old(v.appended)
    ensures var l1 := old(v.local)[AppStatefulRoot := Str(path)];
      var t1 := Tables(v.env, l1, old(v.defaults)["SAF_STATEFUL_CHDIR" := Bool(defaultChdir)]);
      var f1 := old(v.typeFns)["SAF_STATEFUL_CHDIR" := Some(ParseBoolCoercion)];
      && v.local == l1[AppStatefulReady := Bool(true)] && v.defaults == t1.defaults && v.typeFns == f1
      && v.keys == old(v.keys) + {AppStatefulRoot, "SAF_STATEFUL_CHDIR", AppStatefulReady}
      && chdir == Truthy(Read2(v.sources, t1, f1, "SAF_STATEFUL_CHDIR", false))
      && (chdir <==> var m := Scan(v.sources, t1, "SAF_STATEFUL_CHDIR"); m.Some? && Parsing.ParseBool(m.value))
    ensures InternalKeysPlain(v.env, v.typeFns) ==> ReadyRoot(v.sources, v.State(), v.typeFns) == Str(path)
  {
    var _ := v.Set(AppStatefulRoot, Str(path));
    var flag := v.Environ("SAF_STATEFUL_CHDIR", "", Bool(defaultChdir), Some(ParseBoolCoercion));
    chdir := Truthy(flag);
    assert Match2(v.sources, v.State(), "SAF_STATEFUL_CHDIR", false) == Scan(v.sources, v.State(), "SAF_STATEFUL_CHDIR");
    var _ := v.Set(AppStatefulReady, Bool(true));
    if InternalKeysPlain(v.env, v.typeFns) {
      ghost var t := v.State().(local := old(v.local));
      assert v.State() == t.(local := t.local[AppStatefulRoot := Str(path)][AppStatefulReady := Bool(true)]);
      ReadyAfterMarking(v.given, v.appended, t, v.typeFns, Str(path));
    }
  }

  /**
   * `_init_stateful_root` without the directory creation and change (lines
   * 186-211): `rootExists` answers `os.path.exists`. The root is read first;
   * when it does not exist the call stops there. Otherwise the run id and
   * serial are read with their defaults registered, and the path is joined
   * from the root, the run id, the serial and the local name (or the
   * `APP_NAME` read), skipping falsy parts. A path that cannot be joined
   * raises; a joined one is marked as the stateful root. `components` are the
   * three parts as read.
   */
  method InitStatefulRoot(v: Variables2, localName: Value, defaultRoot: string, defaultRunId: Value,
                          defaultRunSerial: Value, defaultChdir: bool, rootExists: Value -> bool)
    returns (r: Result<Option<string>, string>, chdir: bool, stateRoot: Value, components: seq<Value>)
    requires v.Valid()
    modifies v
    ensures v.Valid()
    ensures v.sources == old(v.sources) && v.given == old(v.given) && v.appended == old(v.appended)
    ensures var d1 := old(v.defaults)["STATEFUL_ROOT" := Str(defaultRoot)];
      stateRoot == Read2(v.sources, Tables(v.env, old(v.local), d1), old(v.typeFns), "STATEFUL_ROOT", false)
    ensures ("STATEFUL_ROOT" !in old(v.typeFns) || old(v.typeFns)["STATEFUL_ROOT"].None?) ==>
      && (Upper("STATEFUL_ROOT") in v.env ==> stateRoot == Str(v.env[Upper("STATEFUL_ROOT")]))
      && ((Upper("STATEFUL_ROOT") !in v.env && "STATEFUL_ROOT" !in old(v.local)
           && (forall i :: 0 <= i < |v.given| ==> Probe(Added(v.given[i]), old(v.State()), "STATEFUL_ROOT").None?))
          ==> stateRoot == Str(defaultRoot))
    ensures !rootExists(stateRoot) ==>
      && r == Ok(None) && !chdir && components == []
      && v.local == old(v.local) && v.defaults == old(v.defaults)["STATEFUL_ROOT" := Str(defaultRoot)]
      && v.typeFns == old(v.typeFns) && v.keys == old(v.keys) + {"STATEFUL_ROOT"}
    ensures rootExists(stateRoot) ==>
      var d1 := old(v.defaults)["STATEFUL_ROOT" := Str(defaultRoot)];
      var d2 := WithDefault(d1, "RUN_ID", defaultRunId);
      var d3 := WithDefault(d2, "RUN_SERIAL", defaultRunSerial);
      && |components| == 3
      && components[0] == Read2(v.sources, Tables(v.env, old(v.local), d2), old(v.typeFns), "RUN_ID", false)
      && components[1] == Read2(v.sources, Tables(v.env, old(v.local), d3), old(v.typeFns), "RUN_SERIAL", false)
      && components[2] == (if localName != Null then localName else old(v.Lookup("APP_NAME", false)))
      && (StatefulPath(stateRoot, components).Err? ==>
            && r == Err(StatefulPath(stateRoot, components).error) && !chdir
            && v.local == old(v.local) && v.defaults == d3 && v.typeFns == old(v.typeFns)
            && v.keys == old(v.keys) + {"STATEFUL_ROOT", "RUN_ID", "RUN_SERIAL"})
    ensures rootExists(stateRoot) && |components| == 3 && StatefulPath(stateRoot, components).Ok? ==>
      var path := StatefulPath(stateRoot, components).value;
      var d3 := WithDefault(WithDefault(old(v.defaults)["STATEFUL_ROOT" := Str(defaultRoot)], "RUN_ID", defaultRunId),
                            "RUN_SERIAL", defaultRunSerial);
      var l1 := old(v.local)[AppStatefulRoot := Str(path)];
      var t1 := Tables(v.env, l1, d3["SAF_STATEFUL_CHDIR" := Bool(defaultChdir)]);
      var f1 := old(v.typeFns)["SAF_STATEFUL_CHDIR" := Some(ParseBoolCoercion)];
      && r == Ok(Some(path))
      && v.local == l1[AppStatefulReady := Bool(true)] && v.defaults == t1.defaults && v.typeFns == f1
      && v.keys == old(v.keys) + {"STATEFUL_ROOT", "RUN_ID", "RUN_SERIAL", AppStatefulRoot, "SAF_STATEFUL_CHDIR", AppStatefulReady}
      && (chdir <==> var m := Scan(v.sources, t1, "SAF_STATEFUL_CHDIR"); m.Some? && Parsing.ParseBool(m.value))
    ensures r.Ok? && r.value.Some? && InternalKeysPlain(v.env, v.typeFns) ==> ReadyRoot(v.sources, v.State(), v.typeFns) == Str(r.value.value)
  {
    var name := localName;
    if name == Null {
      name := v.Get("APP_NAME", false);
    }
    ghost var d1 := old(v.defaults)["STATEFUL_ROOT" := Str(defaultRoot)];
    stateRoot := ReadStatefulRoot(v, defaultRoot);
    assert v.State() == Tables(v.env, old(v.local), d1);
    chdir := false;
    components := [];
    if !rootExists(stateRoot) {
      return Ok(None), false, stateRoot, components;
    }
    var runId, runSerial := ReadRunParts(v, defaultRunId, defaultRunSerial);
    ghost var d3 := WithDefault(WithDefault(d1, "RUN_ID", defaultRunId), "RUN_SERIAL", defaultRunSerial);
    assert v.State() == Tables(v.env, old(v.local), d3);
    assert v.keys == old(v.keys) + {"STATEFUL_ROOT", "RUN_ID", "RUN_SERIAL"};
    components := [runId, runSerial, name];
    var path := StatefulPath(stateRoot, components);
    if path.Err? {
      return Err(path.error), false, stateRoot, components;
    }
    chdir := MarkStatefulRoot(v, path.value, defaultChdir);
    r := Ok(Some(path.value));
  }

  // --------------------------------------------------------- working path

  /**
   * `get_working_path(v, default, env_key)` (lines 241-257): `env_key` is read
   * with the stateful root, when ready, or else `default` registered as its
   * default.
   */
  method GetWorkingPath(v: Variables2, default: Value, envKey: string) returns (r: Value, chosen: Value)
    requires v.Valid()
    modifies v
    ensures v.Valid()
    ensures chosen == (var ready := ReadyRoot(old(v.sources), old(v.State()), old(v.typeFns));
                       if ready != Null then ready else default)
    ensures v.defaults == if chosen != Null then old(v.defaults)[envKey := chosen] else old(v.defaults)
    ensures v.local == old(v.local) && v.typeFns == old(v.typeFns) && v.keys == old(v.keys) + {envKey}
    ensures v.given == old(v.given) && v.appended == old(v.appended)
    ensures r == v.Lookup(envKey, false)
    ensures envKey !in v.typeFns || v.typeFns[envKey].None? ==>
      && (Upper(envKey) in v.env ==> r == Str(v.env[Upper(envKey)]))
      && (Upper(envKey) !in v.env && envKey in v.local ==> r == v.local[envKey])
      && ((Upper(envKey) !in v.env && envKey !in v.local && chosen != Null
           && (forall i :: 0 <= i < |v.given| ==> Probe(Added(v.given[i]), v.State(), envKey).None?)) ==> r == chosen)
  {
    var ready := IsStatefulReady(v);
    chosen := if ready != Null then ready else default;
    ghost var t := v.State();
    r := v.Environ(envKey, "", chosen, None);
    if envKey !in v.typeFns || v.typeFns[envKey].None? {
      EnvironResolution(v.given, v.appended, t, v.typeFns, envKey, chosen);
      assert forall i :: 0 <= i < |v.given| ==> Probe(Added(v.given[i]), v.State(), envKey) == Probe(Added(v.given[i]), t, envKey);
    }
  }

  // -------------------------------------------------------- load_strategy

  /** What the `try` of lines 232-236 leaves: the resolved type, or `None` for any of the caught failures. */
  function StrategyType(typeName: Value, parent: Imports.PyType, modules: map<string, map<string, Imports.Attr>>): (r: Option<Imports.PyType>)
    ensures r.Some? <==> Imports.TypeByName(typeName, parent, modules).Ok?
    ensures r.Some? ==> r.value == Imports.TypeByName(typeName, parent, modules).value && Imports.IsSubclass(r.value, parent)
    ensures !Truthy(typeName) ==> r == None
  {
    var res := Imports.TypeByName(typeName, parent, modules);
    if res.Ok? then Some(res.value) else None
  }

  /**
   * `load_strategy(v, parent_type, prefix)` (lines 227-238): the prefixed
   * configuration, less its `type` entry, becomes the keyword arguments; the
   * `type` entry (or `None`) names the class.
   */
  method LoadStrategy(v: Variables2, parent: Imports.PyType, prefix: string, modules: map<string, map<string, Imports.Attr>>)
    returns (strategy: Option<Imports.PyType>, kwargs: map<string, Value>, typeName: Value)
    modifies v
    ensures v.keys == old(v.keys) + NamesWithPrefix(v.env.Keys, prefix + "_")
    ensures v.local == old(v.local) && v.defaults == old(v.defaults) && v.typeFns == old(v.typeFns)
    ensures v.sources == old(v.sources) && v.given == old(v.given) && v.appended == old(v.appended)
    ensures "type" !in kwargs
    ensures kwargs.Keys == ByPrefixNames(v.keys, prefix + "_", true, true) - {"type"}
    ensures forall q :: q in kwargs ==> exists k :: k in v.keys && StartsWith(k, prefix + "_")
                                               && KeyFilter(k, prefix + "_", true, true) == q && kwargs[q] == v.Lookup(k, false)
    ensures "type" !in ByPrefixNames(v.keys, prefix + "_", true, true) ==> typeName == Null && strategy == None
    ensures "type" in ByPrefixNames(v.keys, prefix + "_", true, true) ==>
              exists k :: k in v.keys && StartsWith(k, prefix + "_") && KeyFilter(k, prefix + "_", true, true) == "type"
                          && typeName == v.Lookup(k, false)
    ensures strategy == StrategyType(typeName, parent, modules)
  {
    var found := v.ImportFromEnvByPrefix(prefix, "_", true);
    typeName := if "type" in found then found["type"] else Null;
    kwargs := found - {"type"};
    strategy := StrategyType(typeName, parent, modules);
  }

  /**
   * `load_strategy` over the import as written: the prefix is matched
   * lower-cased and the result names keep their case, so configuration held
   * only in the (upper-case) environment yields no arguments and no type.
   */
  method LoadStrategyAsWritten(v: Variables2, parent: Imports.PyType, prefix: string, modules: map<string, map<string, Imports.Attr>>)
    returns (strategy: Option<Imports.PyType>, kwargs: map<string, Value>, typeName: Value)
    modifies v
    ensures v.keys == old(v.keys) + NamesWithPrefix(v.env.Keys, prefix + "_")
    ensures v.local == old(v.local) && v.defaults == old(v.defaults) && v.typeFns == old(v.typeFns)
    ensures v.sources == old(v.sources) && v.given == old(v.given) && v.appended == old(v.appended)
    ensures "type" !in kwargs
    ensures kwargs.Keys == ByPrefixNames(v.keys, Lower(prefix) + "_", true, false) - {"type"}
    ensures forall q :: q in kwargs ==> exists k :: k in v.keys && StartsWith(k, Lower(prefix) + "_")
                                               && KeyFilter(k, Lower(prefix) + "_", true, false) == q && kwargs[q] == v.Lookup(k, false)
    ensures "type" !in ByPrefixNames(v.keys, Lower(prefix) + "_", true, false) ==> typeName == Null && strategy == None
    ensures "type" in ByPrefixNames(v.keys, Lower(prefix) + "_", true, false) ==>
              exists k :: k in v.keys && StartsWith(k, Lower(prefix) + "_") && KeyFilter(k, Lower(prefix) + "_", true, false) == "type"
                          && typeName == v.Lookup(k, false)
    ensures strategy == StrategyType(typeName, parent, modules)
    ensures (forall k :: k in v.keys ==> !StartsWith(k, Lower(prefix) + "_")) ==> kwargs == map[] && typeName == Null && strategy == None
  {
    var found := v.ImportFromEnvByPrefixAsWritten(prefix, "_", true);
    typeName := if "type" in found then found["type"] else Null;
    kwargs := found - {"type"};
    strategy := StrategyType(typeName, parent, modules);
  }

  // ------------------------------------------------------------ param map

  /** The names of an ordered dict. */
  function Names(pm: seq<(string, Value)>): (r: seq<string>)
    ensures |r| == |pm|
    ensures forall i :: 0 <= i < |pm| ==> r[i] == pm[i].0
  {
    seq(|pm|, i requires 0 <= i < |pm| => pm[i].0)
  }

  /** The keys of the comprehension of line 298: the lower-cased names, each once, in first-appearance order. */
  function LoweredNames(params: seq<(string, Value)>): (r: seq<string>)
    ensures NoDuplicates(r)
    ensures forall n :: n in r ==> Lower(n) == n
  {
    if params == [] then []
    else
      var prev := LoweredNames(params[..|params| - 1]);
      var n := Lower(params[|params| - 1].0);
      LowerIdempotent(params[|params| - 1].0);
      if n in prev then prev else prev + [n]
  }

  /** A parameter name contributes its lower-cased form, and nothing else appears. */
  lemma {:induction false} LoweredNamesMembers(params: seq<(string, Value)>, n: string)
    ensures n in LoweredNames(params) <==> exists i :: 0 <= i < |params| && Lower(params[i].0) == n
  {
    if params != [] {
      var init := params[..|params| - 1];
      LoweredNamesMembers(init, n);
      if exists i :: 0 <= i < |params| && Lower(params[i].0) == n {
        var i :| 0 <= i < |params| && Lower(params[i].0) == n;
        if i < |init| {
          assert init[i] == params[i];
        }
      }
      if exists i :: 0 <= i < |init| && Lower(init[i].0) == n {
        var i :| 0 <= i < |init| && Lower(init[i].0) == n;
        assert params[i] == init[i];
      }
    }
  }

  /** The defaults registered by the comprehension's `environ(k.upper(), default=val)` calls, in order; a `None` value registers nothing. */
  function RegisteredDefaults(d0: map<string, Value>, params: seq<(string, Value)>): map<string, Value> {
    if params == [] then d0
    else
      var prev := RegisteredDefaults(d0, params[..|params| - 1]);
      var (k, x) := params[|params| - 1];
      if x != Null then prev[Upper(k) := x] else prev
  }

  /** The upper-cased parameter names the comprehension records as keys. */
  function UpperNames(params: seq<(string, Value)>): set<string> {
    if params == [] then {} else UpperNames(params[..|params| - 1]) + {Upper(params[|params| - 1].0)}
  }

  /** Assigning `d[n] = x` on an ordered dict: an existing name keeps its place, a new one goes last. */
  function Upsert(pm: seq<(string, Value)>, n: string, x: Value): (r: seq<(string, Value)>)
    ensures n in Names(pm) ==> |r| == |pm| && Names(r) == Names(pm)
                               && forall i :: 0 <= i < |pm| ==> r[i] == if pm[i].0 == n then (n, x) else pm[i]
    ensures n !in Names(pm) ==> r == pm + [(n, x)]
  {
    if n in Names(pm) then
      var r := seq(|pm|, i requires 0 <= i < |pm| => if pm[i].0 == n then (n, x) else pm[i]);
      assert Names(r) == Names(pm);
      r
    else pm + [(n, x)]
  }

  /** Upper-casing tells lower-cased names apart: distinct lower-case names have distinct upper-case forms. */
  lemma UpperSeparatesLowered(n: string, k: string)
    requires Lower(n) == n && n != Lower(k)
    ensures Upper(n) != Upper(k)
  {
    LowerOfUpper(n);
    LowerOfUpper(k);
  }

  /**
   * The comprehension of line 298: for each keyword parameter, in order, the
   * lower-cased name maps to what `environ` returns for the upper-cased name
   * with the parameter's value as default. Two parameters equal up to case
   * share one entry, holding the later read.
   */
  method NormalizeParams(v: Variables2, params: seq<(string, Value)>) returns (pm: seq<(string, Value)>)
    modifies v
    ensures Names(pm) == LoweredNames(params)
    ensures forall i :: 0 <= i < |pm| ==> pm[i].1 == v.Lookup(Upper(pm[i].0), false)
    ensures v.defaults == RegisteredDefaults(old(v.defaults), params)
    ensures v.keys == old(v.keys) + UpperNames(params)
    ensures v.local == old(v.local) && v.typeFns == old(v.typeFns)
    ensures v.sources == old(v.sources) && v.given == old(v.given) && v.appended == old(v.appended)
  {
    pm := [];
    var j := 0;
    while j < |params|
      invariant 0 <= j <= |params|
      invariant Names(pm) == LoweredNames(params[..j])
      invariant forall i :: 0 <= i < |pm| ==> pm[i].1 == v.Lookup(Upper(pm[i].0), false)
      invariant v.defaults == RegisteredDefaults(old(v.defaults), params[..j])
      invariant v.keys == old(v.keys) + UpperNames(params[..j])
      invariant v.local == old(v.local) && v.typeFns == old(v.typeFns)
      invariant v.sources == old(v.sources) && v.given == old(v.given) && v.appended == old(v.appended)
    {
      var (k, val) := params[j];
      assert params[..j + 1][..j] == params[..j] && params[..j + 1][j] == params[j];
      ghost var t := v.State();
      ghost var before := pm;
      var x := v.Environ(Upper(k), "", val, None);
      UpperOfLower(k);
      pm := Upsert(pm, Lower(k), x);
      forall i | 0 <= i < |pm|
        ensures pm[i].1 == v.Lookup(Upper(pm[i].0), false)
      {
        if i < |before| && before[i].0 != Lower(k) {
          assert pm[i] == before[i];
          assert before[i].0 in LoweredNames(params[..j]);
          UpperSeparatesLowered(before[i].0, k);
          ReadAgrees(v.sources, t, v.State(), v.typeFns, Upper(before[i].0));
        }
      }
      j := j + 1;
    }
    assert params[..|params|] == params;
  }

  /**
   * Lines 298 and 306-310: normalise the parameters, build the name and read
   * `APP_NAME` with it as the default, so an `APP_NAME` setting overrides it.
   */
  method DeriveAppName(v: Variables2, base: string, params: seq<(string, Value)>, unnamed: seq<string>, sep: string)
    returns (appName: Value, pm: seq<(string, Value)>)
    requires v.Valid()
    modifies v
    ensures v.Valid() && v.local == old(v.local) && v.typeFns == old(v.typeFns)
    ensures v.sources == old(v.sources) && v.given == old(v.given) && v.appended == old(v.appended)
    ensures v.keys == old(v.keys) + UpperNames(params) + {"APP_NAME"}
    ensures Names(pm) == LoweredNames(params)
    ensures forall i :: 0 <= i < |pm| && Upper(pm[i].0) != "APP_NAME" ==> pm[i].1 == v.Lookup(Upper(pm[i].0), false)
    ensures v.defaults == RegisteredDefaults(old(v.defaults), params)["APP_NAME" := Str(AppName(base, pm, unnamed, sep))]
    ensures appName == v.Lookup("APP_NAME", false)
    ensures "APP_NAME" !in v.typeFns || v.typeFns["APP_NAME"].None? ==>
      && (Upper("APP_NAME") in v.env ==> appName == Str(v.env[Upper("APP_NAME")]))
      && ((Upper("APP_NAME") !in v.env && "APP_NAME" !in v.local
           && (forall i :: 0 <= i < |v.given| ==> Probe(Added(v.given[i]), v.State(), "APP_NAME").None?))
          ==> appName == Str(AppName(base, pm, unnamed, sep)))
  {
    pm := NormalizeParams(v, params);
    var name := AppName(base, pm, unnamed, sep);
    ghost var t := v.State();
    appName := v.Environ("APP_NAME", "", Str(name), None);
    forall i | 0 <= i < |pm| && Upper(pm[i].0) != "APP_NAME"
      ensures pm[i].1 == v.Lookup(Upper(pm[i].0), false)
    {
      ReadAgrees(v.sources, t, v.State(), v.typeFns, Upper(pm[i].0));
    }
    if "APP_NAME" !in v.typeFns || v.typeFns["APP_NAME"].None? {
      EnvironResolution(v.given, v.appended, t, v.typeFns, "APP_NAME", Str(name));
      assert forall i :: 0 <= i < |v.given| ==> Probe(Added(v.given[i]), v.State(), "APP_NAME") == Probe(Added(v.given[i]), t, "APP_NAME");
    }
  }

  // ------------------------------------------------ module-level state

  /** The module globals `_default_vars_inst` and `_sigterm_hooks`. */
  class Globals {
    /** The process environment a default store is built over. */
    const environment: map<string, string>
    var defaultVars: Option<Variables2>
    var hooks: seq<Hook>

    constructor(environment: map<string, string>)
      ensures this.environment == environment && defaultVars == None && hooks == []
    {
      this.environment := environment;
      defaultVars := None;
      hooks := [];
    }

    /** `_get_default_vars_instance()`: a fresh, empty store on first use, the same store afterwards. */
    method DefaultVarsInstance() returns (v: Variables2)
      modifies this
      ensures old(defaultVars).Some? ==> v == old(defaultVars).value
      ensures old(defaultVars).None? ==> fresh(v) && v.Valid() && v.env == environment && v.given == [] && v.appended == []
                                         && v.local == map[] && v.defaults == map[] && v.typeFns == map[] && v.keys == {}
      ensures defaultVars == Some(v) && hooks == old(hooks)
    {
      if defaultVars.None? {
        var created := new Variables2([], environment);
        defaultVars := Some(created);
      }
      v := defaultVars.value;
    }

    /** `get_variables(v)`: a given store is returned as is; anything else gives the default store. */
    method GetVariables(given: Option<Variables2>) returns (v: Variables2)
      modifies this
      ensures given.Some? ==> v == given.value && defaultVars == old(defaultVars)
      ensures given.None? && old(defaultVars).Some? ==> v == old(defaultVars).value
      ensures given.None? && old(defaultVars).None? ==> fresh(v) && v.Valid() && v.env == environment && v.keys == {}
      ensures given.None? ==> defaultVars == Some(v)
      ensures hooks == old(hooks)
    {
      if given.Some? {
        return given.value;
      }
      v := DefaultVarsInstance();
    }

    /** `register_shutdown_function(fn, *args, **kwargs)`. */
    method RegisterShutdownFunction(h: Hook)
      modifies this
      ensures hooks == old(hooks) + [h] && defaultVars == old(defaultVars)
    {
      hooks := hooks + [h];
    }

    /**
     * The loop of `sigterm_hook` (lines 54-59): the hooks, most recent first;
     * an `Exception` is logged and the loop goes on, anything else escapes.
     */
    method RunShutdownHooks() returns (called: seq<Hook>, warned: seq<Hook>, escaped: bool)
      ensures called == CallsUntilEscape(Reverse(hooks))
      ensures warned == Warnings(called)
      ensures escaped <==> Escapes(hooks)
    {
      var pending := Reverse(hooks);
      called, warned, escaped := [], [], false;
      var k := 0;
      while k < |pending|
        invariant 0 <= k <= |pending|
        invariant called == pending[..k]
        invariant forall i :: 0 <= i < k ==> pending[i].outcome != RaisesBaseException
        invariant warned == Warnings(called)
        invariant !escaped
      {
        var h := pending[k];
        WarningsSnoc(called, h);
        called := called + [h];
        assert called == pending[..k + 1];
        if h.outcome == RaisesException {
          warned := warned + [h];
        } else if h.outcome == RaisesBaseException {
          escaped := true;
          CallsUntilFirstEscape(pending, k);
          break;
        }
        k := k + 1;
      }
      if !escaped {
        assert called == pending;
        CallsUntilFirstEscape(pending, |pending|);
      }
      EscapesReversed(hooks);
    }
  }

  /** The calls up to the first escaping hook at `k`, or all of them when `k` is past the end. */
  lemma {:induction false} CallsUntilFirstEscape(pending: seq<Hook>, k: nat)
    requires k <= |pending|
    requires forall i :: 0 <= i < k ==> pending[i].outcome != RaisesBaseException
    requires k < |pending| ==> pending[k].outcome == RaisesBaseException
    ensures CallsUntilEscape(pending) == if k < |pending| then pending[..k + 1] else pending
    ensures Escapes(pending) <==> k < |pending|
  {
    if pending != [] && k > 0 {
      CallsUntilFirstEscape(pending[1..], k - 1);
      if k < |pending| {
        assert pending[..k + 1] == [pending[0]] + pending[1..][..k];
      } else {
        assert pending == [pending[0]] + pending[1..];
      }
    }
  }

  lemma {:induction false} WarningsSnoc(called: seq<Hook>, h: Hook)
    ensures Warnings(called + [h]) == Warnings(called) + (if h.outcome == RaisesException then [h] else [])
  {
    if called == [] {
      assert [] + [h] == [h];
      assert [h][1..] == [];
    } else {
      var c := called + [h];
      assert c[0] == called[0] && c[1..] == called[1..] + [h];
      WarningsSnoc(called[1..], h);
      var w0 := if called[0].outcome == RaisesException then [called[0]] else [];
      assert Warnings(c) == w0 + Warnings(called[1..] + [h]);
      assert Warnings(called) == w0 + Warnings(called[1..]);
    }
  }

  /** One default store per process: two `get_variables()` calls give the same object, and a given store is passed through. */
  method DefaultStoreShared(environment: map<string, string>) returns (first: Variables2, second: Variables2, mine: Variables2, passed: Variables2)
    ensures first == second
    ensures passed == mine && mine != first
  {
    var g := new Globals(environment);
    first := g.GetVariables(None);
    second := g.GetVariables(None);
    mine := new Variables2([], environment);
    passed := g.GetVariables(Some(mine));
  }
}
