/**
 * `k8s/util.py` without the cluster calls: reading an object's metadata, the
 * headless-service DNS name of a pod, building and merging the environment
 * list of a pod's container, finding that list in a pod definition, and the
 * pod-phase tests.
 */
module K8s {
  import opened Base
  import opened Text
  import opened PyValues

  // ------------------------------------------------------------- metadata

  /**
   * A Kubernetes object as the metadata readers see it: a plain dict, whose
   * `metadata` entry (when present) is a dict of fields, or an API client
   * object, whose `metadata` attribute may be missing.
   */
  datatype K8sObject =
    | DictObject(metadata: Option<map<string, Value>>)
    | ApiObject(meta: Option<ApiMetadata>)

  /** The `name` and `namespace` attributes of an API client metadata object. */
  datatype ApiMetadata = ApiMetadata(name: Value, namespace: Value)

  /** `get_metadata_name(obj)`: the name, or `None` when the object has none. */
  function MetadataName(o: K8sObject): (r: Value)
    ensures o.DictObject? && o.metadata.Some? && "name" in o.metadata.value ==> r == o.metadata.value["name"]
    ensures o.DictObject? && (o.metadata.None? || "name" !in o.metadata.value) ==> r == Null
    ensures o.ApiObject? ==> r == if o.meta.Some? then o.meta.value.name else Null
  {
    match o
    case DictObject(md) => if md.Some? && "name" in md.value then md.value["name"] else Null
    case ApiObject(md) => if md.Some? then md.value.name else Null
  }

  /** `get_metadata_namespace(obj)`: the namespace, or `None` when the object has none. */
  function MetadataNamespace(o: K8sObject): (r: Value)
    ensures o.DictObject? && o.metadata.Some? && "namespace" in o.metadata.value ==> r == o.metadata.value["namespace"]
    ensures o.DictObject? && (o.metadata.None? || "namespace" !in o.metadata.value) ==> r == Null
    ensures o.ApiObject? ==> r == if o.meta.Some? then o.meta.value.namespace else Null
  {
    match o
    case DictObject(md) => if md.Some? && "namespace" in md.value then md.value["namespace"] else Null
    case ApiObject(md) => if md.Some? then md.value.namespace else Null
  }

  /** Both readers work alike on a dict and on an API object carrying the same metadata, and on either without metadata. */
  lemma MetadataRepresentationsAgree(name: Value, namespace: Value)
    ensures var d := DictObject(Some(map["name" := name, "namespace" := namespace]));
            var a := ApiObject(Some(ApiMetadata(name, namespace)));
            MetadataName(d) == MetadataName(a) == name && MetadataNamespace(d) == MetadataNamespace(a) == namespace
    ensures MetadataName(DictObject(None)) == MetadataName(ApiObject(None)) == MetadataName(DictObject(Some(map[]))) == Null
    ensures MetadataNamespace(DictObject(None)) == MetadataNamespace(ApiObject(None)) == Null
  {
    assert "name" != "namespace";
  }

  /** `get_headless_service_dns_name_for_pod(pod, service)`: each part formatted with `str`, so a missing one reads `None`. */
  function HeadlessServiceDnsName(pod: K8sObject, service: K8sObject): string {
    PyStr(MetadataName(pod)) + "." + PyStr(MetadataName(service)) + "." + PyStr(MetadataNamespace(service)) + ".svc"
  }

  /** Three names and `svc` joined by dots. */
  lemma DottedName(p: string, s: string, n: string)
    ensures Join([p, s, n, "svc"], ".") == p + "." + s + "." + n + ".svc"
  {
    var parts := [p, s, n, "svc"];
    assert parts[1..] == [s, n, "svc"] && parts[1..][1..] == [n, "svc"] && parts[1..][1..][1..] == ["svc"];
    assert Join([n, "svc"], ".") == n + "." + "svc";
    assert Join([s, n, "svc"], ".") == s + "." + (n + "." + "svc");
    assert "." + "svc" == ".svc";
  }

  /** The DNS name is the pod, service and namespace names and `svc`, joined by dots. */
  lemma DnsNameIsDotted(pod: K8sObject, service: K8sObject)
    ensures HeadlessServiceDnsName(pod, service)
            == Join([PyStr(MetadataName(pod)), PyStr(MetadataName(service)), PyStr(MetadataNamespace(service)), "svc"], ".")
  {
    DottedName(PyStr(MetadataName(pod)), PyStr(MetadataName(service)), PyStr(MetadataNamespace(service)));
  }

  /** With dot-free names, the DNS name splits back into pod, service, namespace and `svc`. */
  lemma DnsNameSplits(podName: string, serviceName: string, namespace: string)
    requires '.' !in podName && '.' !in serviceName && '.' !in namespace
    ensures var pod := DictObject(Some(map["name" := Str(podName)]));
            var service := DictObject(Some(map["name" := Str(serviceName), "namespace" := Str(namespace)]));
            Split(HeadlessServiceDnsName(pod, service), '.') == [podName, serviceName, namespace, "svc"]
  {
    var pod := DictObject(Some(map["name" := Str(podName)]));
    var service := DictObject(Some(map["name" := Str(serviceName), "namespace" := Str(namespace)]));
    assert "name" != "namespace";
    DnsNameIsDotted(pod, service);
    var parts := [podName, serviceName, namespace, "svc"];
    assert forall i :: 0 <= i < |parts| ==> '.' !in parts[i];
    SplitJoin(parts, '.');
  }

  /** The example of `tests/test_k8s_util.py`: `my-pod` behind `my-service` in `default`. */
  lemma DnsNameExample()
    ensures HeadlessServiceDnsName(DictObject(Some(map["name" := Str("my-pod")])),
                                   DictObject(Some(map["name" := Str("my-service"), "namespace" := Str("default")])))
            == "my-pod" + "." + "my-service" + "." + "default" + ".svc"
  {
    assert "name" != "namespace";
  }

  // ------------------------------------------------------ environment lists

  /** A pod environment entry: a dict of fields, normally including `name`. */
  type Entry = map<string, Value>

  /** `fixed_env_vars(key_upper, **kwargs)`: one `{name, value}` entry per keyword, in order. */
  function FixedEnvVars(keyUpper: bool, kwargs: seq<(string, Value)>): (r: seq<Entry>)
    ensures |r| == |kwargs|
    ensures forall i :: 0 <= i < |kwargs| ==> r[i].Keys == {"name", "value"}
    ensures forall i :: 0 <= i < |kwargs| ==> r[i]["name"] == Str(if keyUpper then Upper(kwargs[i].0) else kwargs[i].0)
    ensures forall i :: 0 <= i < |kwargs| ==> r[i]["value"] == Str(PyStr(kwargs[i].1))
  {
    seq(|kwargs|, i requires 0 <= i < |kwargs| =>
      map["name" := Str(if keyUpper then Upper(kwargs[i].0) else kwargs[i].0), "value" := Str(PyStr(kwargs[i].1))])
  }

  /** With `key_upper`, every name is already upper case; without it, names are the keywords as given. */
  lemma FixedEnvVarNames(keyUpper: bool, kwargs: seq<(string, Value)>, i: int)
    requires 0 <= i < |kwargs|
    ensures var n := FixedEnvVars(keyUpper, kwargs)[i]["name"];
            n.Str? && (keyUpper ==> Upper(n.s) == n.s) && (!keyUpper ==> n.s == kwargs[i].0)
  {
    if keyUpper {
      UpperIdempotent(kwargs[i].0);
    }
  }

  /** Whether every entry has a `name` field. */
  predicate AllNamed(es: seq<Entry>) {
    forall i :: 0 <= i < |es| ==> "name" in es[i]
  }

  /** The names of the entries, in order. */
  function NamesOf(es: seq<Entry>): (r: seq<Value>)
    requires AllNamed(es)
    ensures |r| == |es|
    ensures forall i :: 0 <= i < |es| ==> r[i] == es[i]["name"]
  {
    seq(|es|, i requires 0 <= i < |es| => es[i]["name"])
  }

  /** Each value once, at its first occurrence. */
  function Dedup(xs: seq<Value>): (r: seq<Value>)
    ensures NoDuplicates(r)
    ensures forall x :: x in r <==> x in xs
  {
    if xs == [] then []
    else
      var init := xs[..|xs| - 1];
      var prev := Dedup(init);
      var x := xs[|xs| - 1];
      assert xs == init + [x];
      if x in prev then prev else prev + [x]
  }

  /** Where `n` sits among `names`, or `|names|` when it is absent. */
  function Position(names: seq<Value>, n: Value): (r: nat)
    ensures r <= |names|
    ensures r < |names| ==> names[r] == n
    ensures r == |names| <==> n !in names
  {
    if names == [] then 0
    else if names[0] == n then 0
    else Position(names[1..], n) + 1
  }

  /**
   * The dict of lines 89-94, in insertion order: an entry whose name is new
   * is added at the end; one whose name is known updates the earlier entry's
   * fields with its own.
   */
  function Merged(es: seq<Entry>): (r: seq<Entry>)
    requires AllNamed(es)
    ensures AllNamed(r)
  {
    if es == [] then []
    else
      var prev := Merged(es[..|es| - 1]);
      var e := es[|es| - 1];
      var p := Position(NamesOf(prev), e["name"]);
      if p < |prev| then prev[p := prev[p] + e] else prev + [e]
  }

  /** The merged entries carry each name once, in order of first appearance. */
  lemma {:induction false} MergedNames(es: seq<Entry>)
    requires AllNamed(es)
    ensures NamesOf(Merged(es)) == Dedup(NamesOf(es))
  {
    if es != [] {
      var init := es[..|es| - 1];
      MergedNames(init);
      var prev := Merged(init);
      var e := es[|es| - 1];
      var p := Position(NamesOf(prev), e["name"]);
      var xs := NamesOf(es);
      assert xs[..|xs| - 1] == NamesOf(init) && xs[|xs| - 1] == e["name"];
      assert Dedup(xs) == if e["name"] in NamesOf(prev) then NamesOf(prev) else NamesOf(prev) + [e["name"]];
      if p < |prev| {
        assert NamesOf(Merged(es)) == NamesOf(prev);
      } else {
        assert NamesOf(Merged(es)) == NamesOf(prev) + [e["name"]];
      }
    }
  }

  /** The value a field ends up with for a name: that of the last entry with the name that sets the field. */
  function FieldOf(es: seq<Entry>, n: Value, f: string): Option<Value>
    requires AllNamed(es)
  {
    if es == [] then None
    else
      var e := es[|es| - 1];
      if e["name"] == n && f in e then Some(e[f]) else FieldOf(es[..|es| - 1], n, f)
  }

  /** A name no entry carries has no fields. */
  lemma {:induction false} FieldOfUnnamed(es: seq<Entry>, n: Value, f: string)
    requires AllNamed(es) && n !in NamesOf(es)
    ensures FieldOf(es, n, f) == None
  {
    if es != [] {
      assert NamesOf(es[..|es| - 1]) == NamesOf(es)[..|es| - 1];
      FieldOfUnnamed(es[..|es| - 1], n, f);
    }
  }

  /** Each merged entry holds exactly the fields some entry of its name set, each with the value the last such entry gave it. */
  lemma {:induction false} MergedFields(es: seq<Entry>, j: int, f: string)
    requires AllNamed(es) && 0 <= j < |Merged(es)|
    ensures var m := Merged(es)[j];
            && (f in m <==> FieldOf(es, m["name"], f).Some?)
            && (f in m ==> m[f] == FieldOf(es, m["name"], f).value)
  {
    var init := es[..|es| - 1];
    var prev := Merged(init);
    var e := es[|es| - 1];
    var n := e["name"];
    var p := Position(NamesOf(prev), n);
    var m := Merged(es)[j];
    MergedNames(init);
    if j < |prev| {
      MergedFields(init, j, f);
      if j == p {
        assert m == prev[j] + e;
      } else {
        assert m == prev[j];
        assert NamesOf(prev)[j] != n;
      }
    } else {
      assert p == |prev| && m == e;
      assert NamesOf(init)[..] == NamesOf(init);
      FieldOfUnnamed(init, n, f);
    }
  }

  /** Later entries win: a field set by an entry of `b` takes `b`'s value, whatever `a` held. */
  lemma {:induction false} FieldOfAppend(a: seq<Entry>, b: seq<Entry>, n: Value, f: string)
    requires AllNamed(a) && AllNamed(b)
    ensures AllNamed(a + b)
    ensures FieldOf(a + b, n, f) == if FieldOf(b, n, f).Some? then FieldOf(b, n, f) else FieldOf(a, n, f)
  {
    assert forall i :: 0 <= i < |a + b| ==> (a + b)[i] == if i < |a| then a[i] else b[i - |a|];
    if b != [] {
      var init := b[..|b| - 1];
      assert (a + b)[..|a + b| - 1] == a + init;
      FieldOfAppend(a, init, n, f);
    } else {
      assert a + b == a;
    }
  }

  /** The priority of `merge_env_vars`: an argument entry beats a keyword, which beats the original list. */
  lemma MergePriority(original: seq<Entry>, fixed: seq<Entry>, args: seq<Entry>, n: Value, f: string)
    requires AllNamed(original) && AllNamed(fixed) && AllNamed(args)
    ensures AllNamed(original + fixed + args)
    ensures FieldOf(original + fixed + args, n, f)
            == if FieldOf(args, n, f).Some? then FieldOf(args, n, f)
               else if FieldOf(fixed, n, f).Some? then FieldOf(fixed, n, f)
               else FieldOf(original, n, f)
  {
    FieldOfAppend(original, fixed, n, f);
    FieldOfAppend(original + fixed, args, n, f);
  }

  lemma SliceSnoc<T>(s: seq<T>, k: int)
    requires 0 <= k < |s|
    ensures s[..k + 1] == s[..k] + [s[k]]
  {
  }

  /** One more entry: the merge of lines 91-94 applied to the merge so far. */
  lemma MergedSnoc(es: seq<Entry>, e: Entry)
    requires AllNamed(es) && "name" in e
    ensures AllNamed(es + [e])
    ensures var prev := Merged(es);
            var p := Position(NamesOf(prev), e["name"]);
            Merged(es + [e]) == if p < |prev| then prev[p := prev[p] + e] else prev + [e]
  {
    assert (es + [e])[..|es|] == es;
  }

  /** The dict the loop keeps, keyed by name in insertion order, follows the merge entry by entry. */
  lemma InsertStep(prev: seq<Entry>, result: map<Value, Entry>, order: seq<Value>, e: Entry)
    requires AllNamed(prev) && "name" in e && order == NamesOf(prev) && NoDuplicates(order)
    requires forall x :: x in result <==> x in order
    requires forall j :: 0 <= j < |order| ==> result[order[j]] == prev[j]
    ensures var n := e["name"];
            var p := Position(order, n);
            var next := if p < |prev| then prev[p := prev[p] + e] else prev + [e];
            var result' := if n in result then result[n := result[n] + e] else result[n := e];
            var order' := if n in result then order else order + [n];
            && AllNamed(next) && order' == NamesOf(next) && NoDuplicates(order')
            && (forall x :: x in result' <==> x in order')
            && (forall j :: 0 <= j < |order'| ==> result'[order'[j]] == next[j])
  {
    var n := e["name"];
    var p := Position(order, n);
    if n in result {
      assert p < |prev| && result[n] == prev[p];
      var next := prev[p := prev[p] + e];
      assert NamesOf(next) == order;
      forall j | 0 <= j < |order|
        ensures result[n := result[n] + e][order[j]] == next[j]
      {
        if j != p {
          assert order[j] != order[p];
        }
      }
    } else {
      var next := prev + [e];
      assert NamesOf(next) == order + [n];
    }
  }

  /** The `list` object holding a container's environment entries, shared by reference. */
  class EnvList {
    var items: seq<Entry>

    constructor(items: seq<Entry>)
      ensures this.items == items
    {
      this.items := items;
    }
  }

  /** The loop of lines 89-94 and the `values()` of line 97: `None` at the first entry without a name (`KeyError`). */
  method MergeEntries(combined: seq<Entry>) returns (values: seq<Entry>, named: bool)
    ensures named <==> AllNamed(combined)
    ensures named ==> values == Merged(combined)
  {
    var result: map<Value, Entry> := map[];
    var order: seq<Value> := [];
    var k := 0;
    while k < |combined|
      invariant 0 <= k <= |combined|
      invariant AllNamed(combined[..k])
      invariant order == NamesOf(Merged(combined[..k])) && NoDuplicates(order)
      invariant forall x :: x in result <==> x in order
      invariant forall j :: 0 <= j < |order| ==> result[order[j]] == Merged(combined[..k])[j]
    {
      var e := combined[k];
      if "name" !in e {
        return [], false;
      }
      var n := e["name"];
      ghost var done := combined[..k];
      SliceSnoc(combined, k);
      MergedSnoc(done, e);
      InsertStep(Merged(done), result, order, e);
      if n in result {
        result := result[n := result[n] + e];
      } else {
        result := result[n := e];
        order := order + [n];
      }
      k := k + 1;
    }
    assert combined[..|combined|] == combined;
    values := seq(|order|, j requires 0 <= j < |order| => result[order[j]]);
    named := true;
  }

  /**
   * `merge_env_vars(original, *args, key_upper, **kwargs)`: the original
   * entries, the keyword entries and the argument entries are merged by
   * name, and the given list (or a new one for `None`) is rewritten in place
   * with the result. An entry without a name raises `KeyError` before the
   * list is touched.
   */
  method MergeEnvVars(original: EnvList?, args: seq<Entry>, keyUpper: bool, kwargs: seq<(string, Value)>)
    returns (r: Option<EnvList>)
    modifies if original != null then {original} else {}
    ensures var combined := (if original != null then old(original.items) else []) + FixedEnvVars(keyUpper, kwargs) + args;
      && (r.Some? <==> AllNamed(combined))
      && (r.Some? ==> r.value.items == Merged(combined))
      && (r.Some? && original != null ==> r.value == original)
      && (r.Some? && original == null ==> fresh(r.value))
      && (r.None? && original != null ==> original.items == old(original.items))
  {
    var given := if original != null then original.items else [];
    var combined := given + FixedEnvVars(keyUpper, kwargs) + args;
    var values, named := MergeEntries(combined);
    if !named {
      return None;
    }
    if original != null {
      original.items := values;
      r := Some(original);
    } else {
      var created := new EnvList(values);
      r := Some(created);
    }
  }

  // ------------------------------------------------------------ pod env

  /** A container of a pod definition: its `name`, and its `env` list, `null` when the key is absent. */
  class Container {
    const name: Value
    var env: EnvList?

    constructor(name: Value, env: EnvList?)
      ensures this.name == name && this.env == env
    {
      this.name := name;
      this.env := env;
    }
  }

  /** `{c['name']: i for i, c in enumerate(containers)}[n]`: the last container of that name, or -1. */
  function LastIndexOf(containers: seq<Container>, n: Value): (r: int)
    ensures -1 <= r < |containers|
    ensures r >= 0 ==> containers[r].name == n
    ensures forall i :: r < i < |containers| ==> containers[i].name != n
  {
    if containers == [] then -1
    else if containers[|containers| - 1].name == n then |containers| - 1
    else LastIndexOf(containers[..|containers| - 1], n)
  }

  /**
   * The container `get_pod_env` picks (lines 116-120): the last one with the
   * given name, a `KeyError` when none has it; else the one at the index,
   * counted from the end when negative, an `IndexError` when out of range.
   */
  function PickContainer(containers: seq<Container>, containerName: Option<Value>, containerIndex: int): (r: Result<nat, string>)
    ensures r.Ok? ==> r.value < |containers|
    ensures containerName.Some? ==> (r.Ok? <==> exists i :: 0 <= i < |containers| && containers[i].name == containerName.value)
    ensures containerName.Some? && r.Ok? ==> containers[r.value].name == containerName.value
    ensures containerName.Some? && r.Ok? ==> forall i :: r.value < i < |containers| ==> containers[i].name != containerName.value
    ensures containerName.None? ==> (r.Ok? <==> -|containers| <= containerIndex < |containers|)
    ensures containerName.None? && r.Ok? ==> r.value == if containerIndex >= 0 then containerIndex else containerIndex + |containers|
  {
    if containerName.Some? then
      var i := LastIndexOf(containers, containerName.value);
      if i < 0 then Err("KeyError") else Ok(i)
    else if -|containers| <= containerIndex < 0 then Ok(containerIndex + |containers|)
    else if 0 <= containerIndex < |containers| then Ok(containerIndex)
    else Err("IndexError: list index out of range")
  }

  /**
   * `get_pod_env(pod_def, container_name, container_index)`: `containers`
   * is the pod's container list, empty when the pod, its `spec` or its
   * `containers` is missing. The picked container's `env` list is returned
   * by reference, created empty and stored first when absent.
   */
  method GetPodEnv(containers: seq<Container>, containerName: Option<Value>, containerIndex: int)
    returns (r: Result<Option<EnvList>, string>)
    modifies set i | 0 <= i < |containers| :: containers[i]
    ensures containers == [] ==> r == Ok(None)
    ensures containers != [] ==> (r.Err? <==> PickContainer(containers, containerName, containerIndex).Err?)
    ensures r.Ok? && containers != [] ==>
      var c := containers[PickContainer(containers, containerName, containerIndex).value];
      && r.value == Some(c.env) && c.env != null
      && (old(c.env) == null ==> fresh(c.env) && c.env.items == [])
      && (old(c.env) != null ==> c.env == old(c.env))
    ensures forall i :: 0 <= i < |containers| && (r.Err? || containers == []
              || containers[i] != containers[PickContainer(containers, containerName, containerIndex).value])
              ==> containers[i].env == old(containers[i].env)
  {
    if containers == [] {
      return Ok(None);
    }
    var pick := PickContainer(containers, containerName, containerIndex);
    if pick.Err? {
      return Err(pick.error);
    }
    var c := containers[pick.value];
    if c.env == null {
      var created := new EnvList([]);
      c.env := created;
    }
    r := Ok(Some(c.env));
  }

  // --------------------------------------------------------------- phases

  /** `_is_running_phase`. */
  predicate IsRunningPhase(phase: Value) {
    phase == Str("Running")
  }

  /** `_is_not_running_phase`. */
  predicate IsNotRunningPhase(phase: Value) {
    phase != Str("Running")
  }

  /** `_is_active_phase`: pending or running. */
  predicate IsActivePhase(phase: Value) {
    phase in [Str("Running"), Str("Pending")]
  }

  /** `_is_terminated_phase`: succeeded or failed. */
  predicate IsTerminatedPhase(phase: Value) {
    phase in [Str("Succeeded"), Str("Failed")]
  }

  /** `_is_not_terminated_phase`. */
  predicate IsNotTerminatedPhase(phase: Value) {
    phase !in [Str("Succeeded"), Str("Failed")]
  }

  /** The negated tests are exact negations, running is active, and an active pod is not terminated. */
  lemma PhaseRelations(phase: Value)
    ensures IsNotRunningPhase(phase) <==> !IsRunningPhase(phase)
    ensures IsNotTerminatedPhase(phase) <==> !IsTerminatedPhase(phase)
    ensures IsRunningPhase(phase) ==> IsActivePhase(phase)
    ensures IsActivePhase(phase) ==> !IsTerminatedPhase(phase)
    ensures IsActivePhase(phase) <==> phase == Str("Running") || phase == Str("Pending")
    ensures IsTerminatedPhase(phase) <==> phase == Str("Succeeded") || phase == Str("Failed")
  {
  }

  /** A phase that is not a string, such as `None`, is neither running, active nor terminated. */
  lemma NonStringPhase(phase: Value)
    requires !phase.Str?
    ensures !IsRunningPhase(phase) && !IsActivePhase(phase) && !IsTerminatedPhase(phase)
  {
  }
}
